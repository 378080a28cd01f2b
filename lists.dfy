/** Sequence operations behind the entity lists of the game loop: JavaScript's
    one-element `splice`, filtering by a keep-test, and the batched
    "walk a list of marked indices backwards and splice each one" removal. */
module Lists {

  datatype Option<T> = None | Some(value: T)

  /** `s.splice(i, 1)`: removes the element at `i`; an index past the end
      removes nothing, as in JavaScript. Every other element survives, those
      after `i` one place further forward. */
  function RemoveAt<T>(s: seq<T>, i: nat): (r: seq<T>)
    ensures i < |s| ==> |r| == |s| - 1
    ensures i < |s| ==> forall k :: 0 <= k < |s| && k != i ==> s[k] == r[if k < i then k else k - 1]
    ensures i >= |s| ==> r == s
  {
    if i < |s| then s[..i] + s[i + 1..] else s
  }

  /** Splicing adds no element. */
  lemma RemoveAtSubset<T>(s: seq<T>, i: nat, x: T)
    requires x in RemoveAt(s, i)
    ensures x in s
  {
    var j :| 0 <= j < |RemoveAt(s, i)| && RemoveAt(s, i)[j] == x;
    if i < |s| && j >= i {
      assert s[j + 1] == x;
    } else {
      assert s[j] == x;
    }
  }

  /** Every element other than the one spliced out is still there. */
  lemma RemoveAtKeepsOthers<T>(s: seq<T>, i: nat, x: T)
    requires x in s
    requires i >= |s| || x != s[i]
    ensures x in RemoveAt(s, i)
  {
    if i < |s| {
      var j :| 0 <= j < |s| && s[j] == x;
      if j < i {
        assert RemoveAt(s, i)[j] == x;
      } else {
        assert RemoveAt(s, i)[j - 1] == x;
      }
    }
  }

  /** The elements of `s` that pass `keep`, in their original order. */
  function Filter<T>(s: seq<T>, keep: T -> bool): (r: seq<T>)
    ensures |r| <= |s|
    ensures forall k :: 0 <= k < |r| ==> keep(r[k])
  {
    if s == [] then [] else (if keep(s[0]) then [s[0]] else []) + Filter(s[1..], keep)
  }

  /** Filtering loses exactly the elements that fail the test. */
  lemma {:induction false} FilterMembership<T>(s: seq<T>, keep: T -> bool, x: T)
    ensures x in Filter(s, keep) <==> x in s && keep(x)
  {
    if s != [] {
      FilterMembership(s[1..], keep, x);
      assert s == [s[0]] + s[1..];
    }
  }

  /** Filtering a sequence that passes the test entirely changes nothing. */
  lemma {:induction false} FilterAllKept<T>(s: seq<T>, keep: T -> bool)
    requires forall k :: 0 <= k < |s| ==> keep(s[k])
    ensures Filter(s, keep) == s
  {
    if s != [] {
      FilterAllKept(s[1..], keep);
      assert s == [s[0]] + s[1..];
    }
  }

  /** A second pass with the same test removes nothing more. */
  lemma FilterIdempotent<T>(s: seq<T>, keep: T -> bool)
    ensures Filter(Filter(s, keep), keep) == Filter(s, keep)
  {
    FilterAllKept(Filter(s, keep), keep);
  }

  /** Filtering a list with a known first element. */
  lemma FilterCons<T>(x: T, rest: seq<T>, keep: T -> bool)
    ensures Filter([x] + rest, keep) == (if keep(x) then [x] else []) + Filter(rest, keep)
  {
    assert ([x] + rest)[1..] == rest;
  }

  /** A backwards filtering walk over `src` whose list so far is the
      untouched prefix of `whole` followed by the filtered suffix of `src`:
      storing `src[i]` at `i` and keeping it has filtered one more. */
  lemma FilterWalkKept<T>(whole: seq<T>, src: seq<T>, i: nat, list: seq<T>, keep: T -> bool)
    requires i < |whole| && i < |src| && keep(src[i])
    requires list == whole[..i + 1] + Filter(src[i + 1..], keep)
    ensures list[i := src[i]] == whole[..i] + Filter(src[i..], keep)
  {
    var x, rest := src[i], src[i + 1..];
    assert src[i..] == [x] + rest;
    FilterCons(x, rest, keep);
    assert Filter(src[i..], keep) == [x] + Filter(rest, keep);
    assert whole[..i + 1] == whole[..i] + [whole[i]];
    assert list[i := x] == whole[..i] + ([x] + Filter(rest, keep));
  }

  /** As `FilterWalkKept`, for an element that fails the test and is
      spliced out. */
  lemma FilterWalkDropped<T>(whole: seq<T>, src: seq<T>, i: nat, list: seq<T>, keep: T -> bool)
    requires i < |whole| && i < |src| && !keep(src[i])
    requires list == whole[..i + 1] + Filter(src[i + 1..], keep)
    ensures RemoveAt(list[i := src[i]], i) == whole[..i] + Filter(src[i..], keep)
  {
    var x, rest := src[i], src[i + 1..];
    assert src[i..] == [x] + rest;
    FilterCons(x, rest, keep);
    assert Filter(src[i..], keep) == Filter(rest, keep);
    var t := list[i := x];
    assert |t| > i;
    assert RemoveAt(t, i) == t[..i] + t[i + 1..];
    assert t[..i] == whole[..i];
    assert t[i + 1..] == Filter(rest, keep);
  }

  /** Moving one element across the seam of a concatenation. */
  lemma AppendRegroup<T>(a: seq<T>, b: seq<T>, x: T, c: seq<T>)
    ensures a + (b + [x]) + c == a + b + ([x] + c)
  {
    var left, right := a + (b + [x]) + c, a + b + ([x] + c);
    assert |left| == |right|;
    forall k | 0 <= k < |left|
      ensures left[k] == right[k]
    {
    }
  }

  /** The batched removal pass: the marks are walked from the last to the
      first and each one is spliced out of the list as it stands at that
      moment. */
  function DropIndices<T>(s: seq<T>, marks: seq<nat>): (r: seq<T>)
    ensures |s| - |marks| <= |r| <= |s|
  {
    if marks == [] then s
    else DropIndices(RemoveAt(s, marks[|marks| - 1]), marks[..|marks| - 1])
  }

  /** Walking the first `i` marks backwards starts with the `i`-th. */
  lemma DropIndicesPrefixStep<T>(s: seq<T>, marks: seq<nat>, i: nat)
    requires 0 < i <= |marks|
    ensures DropIndices(s, marks[..i]) == DropIndices(RemoveAt(s, marks[i - 1]), marks[..i - 1])
  {
    assert marks[..i][..i - 1] == marks[..i - 1];
  }

  /** The positions a list of marks names. */
  function Marked(marks: seq<nat>): (r: set<nat>)
    ensures forall k :: 0 <= k < |marks| ==> marks[k] in r
  {
    set k | 0 <= k < |marks| :: marks[k]
  }

  /** Marks listed in strictly increasing order. */
  predicate StrictlyAscending(marks: seq<nat>)
  {
    forall k, l :: 0 <= k < l < |marks| ==> marks[k] < marks[l]
  }

  /** The elements of `s` whose positions are not in `marks`, in order: what
      a correct batched removal leaves behind. */
  function KeepUnmarked<T>(s: seq<T>, marks: set<nat>): (r: seq<T>)
    ensures |r| <= |s|
  {
    if s == [] then []
    else KeepUnmarked(s[..|s| - 1], marks) + (if |s| - 1 in marks then [] else [s[|s| - 1]])
  }

  /** Marks at or beyond the end of `s` do not matter. */
  lemma {:induction false} KeepUnmarkedIgnoresFar<T>(s: seq<T>, m1: set<nat>, m2: set<nat>)
    requires forall i: nat :: i < |s| ==> (i in m1 <==> i in m2)
    ensures KeepUnmarked(s, m1) == KeepUnmarked(s, m2)
  {
    if s != [] {
      KeepUnmarkedIgnoresFar(s[..|s| - 1], m1, m2);
    }
  }

  /** A suffix beyond every mark is kept whole. */
  lemma {:induction false} KeepUnmarkedAppend<T>(a: seq<T>, b: seq<T>, marks: set<nat>)
    requires forall i :: i in marks ==> i < |a|
    ensures KeepUnmarked(a + b, marks) == KeepUnmarked(a, marks) + b
  {
    if b == [] {
      assert a + b == a;
    } else {
      var b', last := b[..|b| - 1], b[|b| - 1];
      var ab := a + b;
      assert ab[..|ab| - 1] == a + b';
      assert ab[|ab| - 1] == last;
      assert |ab| - 1 !in marks;
      KeepUnmarkedAppend(a, b', marks);
      assert b == b' + [last];
    }
  }

  /** Splicing out the largest mark first and then the smaller ones is the
      same as keeping every unmarked element. */
  lemma KeepUnmarkedRemoveLargest<T>(s: seq<T>, mk: nat, pre: set<nat>)
    requires mk < |s|
    requires forall i :: i in pre ==> i < mk
    ensures KeepUnmarked(RemoveAt(s, mk), pre) == KeepUnmarked(s, pre + {mk})
  {
    var head, upto, tail := s[..mk], s[..mk + 1], s[mk + 1..];
    var all := pre + {mk};
    assert RemoveAt(s, mk) == head + tail;
    KeepUnmarkedAppend(head, tail, pre);
    assert s == upto + tail;
    KeepUnmarkedAppend(upto, tail, all);
    assert upto[..|upto| - 1] == head;
    assert KeepUnmarked(upto, all) == KeepUnmarked(head, all);
    KeepUnmarkedIgnoresFar(head, pre, all);
  }

  /** Dropping the largest of ascending marks leaves ascending marks that all
      lie below it. */
  lemma AscendingPrefix(marks: seq<nat>, pre: seq<nat>, n: nat)
    requires marks != [] && StrictlyAscending(marks)
    requires forall k :: 0 <= k < |marks| ==> marks[k] < n
    requires pre == marks[..|marks| - 1]
    ensures StrictlyAscending(pre)
    ensures forall k :: 0 <= k < |pre| ==> pre[k] < marks[|marks| - 1] && pre[k] < n - 1
  {
    var last := |marks| - 1;
    forall k | 0 <= k < |pre|
      ensures pre[k] < marks[last] && pre[k] < n - 1
    {
      assert pre[k] == marks[k];
    }
  }

  /** Marks below a bound stay below it when the last one is dropped. */
  lemma PrefixBelow(marks: seq<nat>, pre: seq<nat>, bound: nat)
    requires marks != [] && pre == marks[..|marks| - 1]
    requires forall k :: 0 <= k < |marks| ==> marks[k] < bound
    ensures forall k :: 0 <= k < |pre| ==> pre[k] < bound
  {
  }

  /** Every position named by marks below `bound` is below `bound`. */
  lemma MarkedBelow(marks: seq<nat>, bound: nat)
    requires forall k :: 0 <= k < |marks| ==> marks[k] < bound
    ensures forall x :: x in Marked(marks) ==> x < bound
  {
  }

  /** The positions of all marks are those of all but the last, plus the last. */
  lemma MarkedLast(marks: seq<nat>)
    requires marks != []
    ensures Marked(marks[..|marks| - 1]) + {marks[|marks| - 1]} == Marked(marks)
  {
    var n := |marks| - 1;
    var pre := marks[..n];
    forall x | x in Marked(marks)
      ensures x in Marked(pre) + {marks[n]}
    {
      var k :| 0 <= k < |marks| && marks[k] == x;
      if k < n {
        assert pre[k] == x;
      }
    }
  }

  /** When the marks are strictly ascending and in range, the backwards walk
      removes exactly the marked elements. */
  lemma {:induction false} DropIndicesAscending<T>(s: seq<T>, marks: seq<nat>)
    requires StrictlyAscending(marks)
    requires forall k :: 0 <= k < |marks| ==> marks[k] < |s|
    ensures DropIndices(s, marks) == KeepUnmarked(s, Marked(marks))
  {
    if marks == [] {
      assert Marked(marks) == {};
      KeepUnmarkedNone(s);
    } else {
      var n := |marks| - 1;
      var mk, pre := marks[n], marks[..n];
      var s' := RemoveAt(s, mk);
      AscendingPrefix(marks, pre, |s|);
      assert DropIndices(s, marks) == DropIndices(s', pre);
      DropIndicesAscending(s', pre);
      MarkedBelow(pre, mk);
      KeepUnmarkedRemoveLargest(s, mk, Marked(pre));
      MarkedLast(marks);
    }
  }

  /** With no marks nothing is removed. */
  lemma {:induction false} KeepUnmarkedNone<T>(s: seq<T>)
    ensures KeepUnmarked(s, {}) == s
  {
    if s != [] {
      KeepUnmarkedNone(s[..|s| - 1]);
    }
  }

  /** A mark listed twice splices out the element that slid into its place:
      two elements go although only one position was marked, unless the
      marked element was the last one. */
  lemma DropIndicesDuplicateMark<T>(s: seq<T>, i: nat)
    requires i < |s|
    ensures i + 1 < |s| ==> DropIndices(s, [i, i]) == s[..i] + s[i + 2..]
    ensures i + 1 == |s| ==> DropIndices(s, [i, i]) == s[..i]
    ensures KeepUnmarked(s, {i}) == s[..i] + s[i + 1..]
  {
    var marks: seq<nat> := [i, i];
    var once := RemoveAt(s, i);
    assert marks[..1] == [i];
    assert DropIndices(s, marks) == DropIndices(once, [i]);
    assert [i][..0] == [];
    assert DropIndices(once, [i]) == RemoveAt(once, i);
    RemoveAtTwice(s, i);
    KeepUnmarkedSingle(s, i);
  }

  /** Splicing the same index twice. */
  lemma RemoveAtTwice<T>(s: seq<T>, i: nat)
    requires i < |s|
    ensures i + 1 < |s| ==> RemoveAt(RemoveAt(s, i), i) == s[..i] + s[i + 2..]
    ensures i + 1 == |s| ==> RemoveAt(RemoveAt(s, i), i) == s[..i]
  {
    var once := RemoveAt(s, i);
    assert once[..i] == s[..i];
    if i + 1 < |s| {
      assert once[i + 1..] == s[i + 2..];
    }
  }

  /** Keeping the unmarked elements with one position marked splices that
      position out. */
  lemma KeepUnmarkedSingle<T>(s: seq<T>, i: nat)
    requires i < |s|
    ensures KeepUnmarked(s, {i}) == s[..i] + s[i + 1..]
  {
    KeepUnmarkedRemoveLargest(s, i, {});
    KeepUnmarkedNone(RemoveAt(s, i));
    assert {} + {i} == {i};
  }
}
