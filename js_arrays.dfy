/**
 * The JavaScript array operations the file model edits its lists with:
 * `splice(start, deleteCount, ...items)` and `indexOf(x)`, with the
 * language's rules for negative and out-of-range positions.
 */
module JsArrays {

  /** What a splice leaves: the edited list and the removed elements. */
  datatype Spliced<T> = Spliced(result: seq<T>, removed: seq<T>)

  /** The actual start of a splice: negative positions count from the end, and both ends clamp. */
  function RelativeStart(start: int, len: nat): (k: nat)
    ensures k <= len
    ensures 0 <= start <= len ==> k == start
    ensures start < 0 && len + start >= 0 ==> k == len + start
    ensures len + start < 0 ==> k == 0
    ensures start > len ==> k == len
  {
    if start < 0 then (if len + start < 0 then 0 else len + start)
    else if start > len then len
    else start
  }

  /** The actual delete count: clamped to between 0 and the elements after the start. */
  function DeleteCount(deleteCount: int, available: nat): (d: nat)
    ensures d <= available
    ensures 0 <= deleteCount <= available ==> d == deleteCount
  {
    if deleteCount < 0 then 0 else if deleteCount > available then available else deleteCount
  }

  /** `s.splice(start, deleteCount, ...items)`: removes up to deleteCount elements at the start and inserts items there. */
  function Splice<T>(s: seq<T>, start: int, deleteCount: int, items: seq<T>): (r: Spliced<T>)
    ensures |r.removed| <= |s|
    ensures |r.removed| == DeleteCount(deleteCount, |s| - RelativeStart(start, |s|))
    ensures |r.result| == |s| - |r.removed| + |items|
    ensures var k := RelativeStart(start, |s|);
      k + |r.removed| <= |s| &&
      r.result[..k] == s[..k] && r.result[k..k + |items|] == items &&
      r.result[k + |items|..] == s[k + |r.removed|..] && r.removed == s[k..k + |r.removed|]
  {
    var k := RelativeStart(start, |s|);
    var d := DeleteCount(deleteCount, |s| - k);
    Spliced(s[..k] + items + s[k + d..], s[k..k + d])
  }

  /** Every element a splice leaves was in the list or among the inserted items. */
  lemma SpliceMembers<T>(s: seq<T>, start: int, deleteCount: int, items: seq<T>)
    ensures forall x :: x in Splice(s, start, deleteCount, items).result ==> x in s || x in items
  {
    var r := Splice(s, start, deleteCount, items);
    var k := RelativeStart(start, |s|);
    var d := |r.removed|;
    assert r.result == s[..k] + items + s[k + d..];
    forall x | x in r.result
      ensures x in s || x in items
    {
      if x in s[..k] {
        assert x in s;
      } else if x in s[k + d..] {
        assert x in s;
      }
    }
  }

  /** `s.indexOf(x)`: the first position holding x, or -1 when there is none. */
  function IndexOf<T(==)>(s: seq<T>, x: T): (r: int)
    ensures -1 <= r < |s|
    ensures r == -1 <==> x !in s
    ensures r >= 0 ==> s[r] == x && x !in s[..r]
  {
    if |s| == 0 then -1
    else if s[0] == x then 0
    else
      var k := IndexOf(s[1..], x);
      assert s == [s[0]] + s[1..];
      if k == -1 then -1
      else
        assert s[..k + 1] == [s[0]] + s[1..][..k];
        k + 1
  }

  /** A splice whose start and delete count are already in range. */
  lemma SpliceInRange<T>(s: seq<T>, k: nat, d: nat, items: seq<T>)
    requires k + d <= |s|
    ensures Splice(s, k, d, items) == Spliced(s[..k] + items + s[k + d..], s[k..k + d])
  {
  }

  /** Cutting a list in three pieces and joining them gives it back. */
  lemma ThreePieces<T>(s: seq<T>, k: nat, d: nat)
    requires k + d <= |s|
    ensures s[..k] + s[k..k + d] + s[k + d..] == s
  {
  }

  /** Splicing the removed elements back in place of the inserted ones restores the list. */
  lemma SpliceUndo<T>(s: seq<T>, start: int, deleteCount: int, items: seq<T>)
    ensures var r := Splice(s, start, deleteCount, items);
      Splice(r.result, RelativeStart(start, |s|), |items|, r.removed) == Spliced(s, items)
  {
    var k := RelativeStart(start, |s|);
    var d := DeleteCount(deleteCount, |s| - k);
    var t := s[..k] + items + s[k + d..];
    assert Splice(s, start, deleteCount, items) == Spliced(t, s[k..k + d]);
    SpliceInRange(t, k, |items|, s[k..k + d]);
    assert t[..k] == s[..k] && t[k..k + |items|] == items && t[k + |items|..] == s[k + d..];
    ThreePieces(s, k, d);
  }

  /** `splice(idx, 0, x)` with idx in 0..|s| puts x at idx and keeps every other element in order. */
  lemma InsertAt<T>(s: seq<T>, idx: int, x: T)
    requires 0 <= idx <= |s|
    ensures Splice(s, idx, 0, [x]) == Spliced(s[..idx] + [x] + s[idx..], [])
  {
  }

  /** `splice(idx, 1, v)` with idx in range replaces one element, returning the old one, and keeps the length. */
  lemma ReplaceAt<T>(s: seq<T>, idx: int, v: T)
    requires 0 <= idx < |s|
    ensures Splice(s, idx, 1, [v]) == Spliced(s[idx := v], [s[idx]])
  {
    var r := Splice(s, idx, 1, [v]);
    assert r.result == s[..idx] + [v] + s[idx + 1..];
  }

  /** `splice(idx, 1)` with idx in range removes just that element. */
  lemma RemoveAt<T>(s: seq<T>, idx: int)
    requires 0 <= idx < |s|
    ensures Splice(s, idx, 1, []) == Spliced(s[..idx] + s[idx + 1..], [s[idx]])
  {
  }

  /** `splice(-1, 1, ...items)` replaces the last element of a non-empty list, and only inserts into an empty one. */
  lemma SpliceLast<T>(s: seq<T>, items: seq<T>)
    ensures |s| > 0 ==> Splice(s, -1, 1, items) == Spliced(s[..|s| - 1] + items, [s[|s| - 1]])
    ensures |s| == 0 ==> Splice(s, -1, 1, items) == Spliced(items, [])
  {
    if |s| > 0 {
      var n := |s| - 1;
      assert RelativeStart(-1, |s|) == n;
      assert Splice(s, -1, 1, items) == Spliced(s[..n] + items + s[n + 1..], s[n..n + 1]);
      assert s[n + 1..] == [] && s[n..n + 1] == [s[n]];
    } else {
      assert Splice(s, -1, 1, items) == Spliced([] + items + [], []);
    }
  }

  /**
   * Editing at indexOf of an element that is not there edits at -1, the last
   * element: a one-element splice removes or replaces the last element of a
   * non-empty list, and on an empty list it only inserts.
   */
  lemma SpliceAtMiss<T>(s: seq<T>, x: T, items: seq<T>)
    requires x !in s
    ensures |s| > 0 ==>
      Splice(s, IndexOf(s, x), 1, items) == Spliced(s[..|s| - 1] + items, [s[|s| - 1]])
    ensures |s| == 0 ==> Splice(s, IndexOf(s, x), 1, items) == Spliced(items, [])
  {
    assert IndexOf(s, x) == -1;
    SpliceLast(s, items);
  }
}
