/** The overlapping-window loop shared by `chunk_text` (only_sqlit.py) and the
    chunking inside `extract_text_from_pdf` (util/chroma_with_chunk.py):
    slice `s[start:start+size]`, then move `start` on by `size - overlap`,
    while `start < len(s)`. With overlap 0 it is also the batching loop of
    `batch_upsert` (util/pincone_ingest.py). */
module Chunking {
  import opened Common
  import opened PyStr

  /** The windows the loop appends from position `start` on. */
  function WindowsFrom<T>(s: seq<T>, start: nat, size: int, overlap: int): seq<seq<T>>
    requires overlap < size
    decreases |s| - start
  {
    if start >= |s| then []
    else [Slice(s, start, start + size)] + WindowsFrom(s, start + (size - overlap), size, overlap)
  }

  /** The loop stops: on empty input it never runs, otherwise the stride must
      be positive. */
  predicate Terminates<T>(s: seq<T>, size: int, overlap: int)
  {
    |s| == 0 || overlap < size
  }

  /** The whole loop, started at 0. */
  function Windows<T>(s: seq<T>, size: int, overlap: int): (r: seq<seq<T>>)
    requires Terminates(s, size, overlap)
    ensures |s| == 0 ==> r == []
  {
    if |s| == 0 then [] else WindowsFrom(s, 0, size, overlap)
  }

  /** Where the loop's `start` stands after `k` iterations: `k` strides in. */
  function StartAt(k: nat, step: int): (p: int)
    ensures 0 <= step ==> 0 <= p
  {
    if k == 0 then 0 else StartAt(k - 1, step) + step
  }

  lemma {:induction false} StartAtIsProduct(k: nat, step: int)
    ensures StartAt(k, step) == k * step
  {
    if k > 0 {
      StartAtIsProduct(k - 1, step);
      assert k * step == (k - 1) * step + step;
    }
  }

  /** Without a positive stride `start` never moves forward, so on non-empty
      input the loop condition holds on every iteration: the precondition of
      `Windows` is exactly what the source needs to stop. */
  lemma NoProgressWithoutStride<T>(s: seq<T>, size: int, overlap: int, k: nat)
    requires |s| > 0 && size <= overlap
    ensures StartAt(k, size - overlap) < |s|
    decreases k
  {
    if k > 0 {
      NoProgressWithoutStride(s, size, overlap, k - 1);
    }
  }

  /** There are ⌈(|s| - start) / stride⌉ windows. */
  lemma {:induction false} WindowsFromCount<T>(s: seq<T>, start: nat, size: int, overlap: int)
    requires 0 < size && overlap < size
    ensures |WindowsFrom(s, start, size, overlap)| ==
      CeilDiv(if start <= |s| then |s| - start else 0, size - overlap)
    decreases |s| - start
  {
    var step := size - overlap;
    if start < |s| {
      var next := start + step;
      WindowsFromCount(s, next, size, overlap);
      var n := |s| - start;
      if n <= step {
        assert CeilDiv(n, step) == 1;
      } else {
        assert CeilDiv(n, step) == CeilDiv(n - step, step) + 1;
      }
    }
  }

  lemma SliceWindow<T>(s: seq<T>, start: nat, size: int)
    requires 0 < size && start < |s|
    ensures Slice(s, start, start + size) == s[start .. Min(start + size, |s|)]
  {
  }

  /** Window `i` starts `i` strides in and is cut short only by the end of `s`. */
  lemma {:induction false} WindowsFromAt<T>(s: seq<T>, start: nat, size: int, overlap: int, i: nat)
    requires 0 < size && overlap < size
    requires i < |WindowsFrom(s, start, size, overlap)|
    ensures start + StartAt(i, size - overlap) < |s|
    ensures WindowsFrom(s, start, size, overlap)[i] ==
      s[start + StartAt(i, size - overlap) .. Min(start + StartAt(i, size - overlap) + size, |s|)]
    decreases i
  {
    var step := size - overlap;
    var next := start + step;
    var r := WindowsFrom(s, start, size, overlap);
    assert start < |s|;
    var rest := WindowsFrom(s, next, size, overlap);
    assert r == [Slice(s, start, start + size)] + rest;
    if i == 0 {
      SliceWindow(s, start, size);
    } else {
      WindowsFromAt(s, next, size, overlap, i - 1);
      assert start + StartAt(i, step) == next + StartAt(i - 1, step);
      assert r[i] == rest[i - 1];
    }
  }

  /** Every window is non-empty and at most `size` long. */
  lemma WindowBounds<T>(s: seq<T>, size: int, overlap: int)
    requires 0 < size && overlap < size
    ensures forall w :: w in Windows(s, size, overlap) ==> 0 < |w| <= size
  {
    var r := Windows(s, size, overlap);
    forall w | w in r ensures 0 < |w| <= size {
      var i :| 0 <= i < |r| && r[i] == w;
      WindowsFromAt(s, 0, size, overlap, i);
    }
  }

  /** Window `i` of the whole loop, by the loop's own start positions. */
  lemma WindowAt<T>(s: seq<T>, size: int, overlap: int, i: nat)
    requires 0 < size && overlap < size
    requires i < |Windows(s, size, overlap)|
    ensures StartAt(i, size - overlap) < |s|
    ensures Windows(s, size, overlap)[i] ==
      s[StartAt(i, size - overlap) .. Min(StartAt(i, size - overlap) + size, |s|)]
  {
    assert |s| > 0;
    assert Windows(s, size, overlap) == WindowsFrom(s, 0, size, overlap);
    WindowsFromAt(s, 0, size, overlap, i);
    var st := StartAt(i, size - overlap);
    assert 0 + st == st;
  }

  /** The closed form of window `i`: it starts at `i * (size - overlap)` and
      holds `size` elements, fewer only at the end of `s`. */
  lemma WindowClosedForm<T>(s: seq<T>, size: int, overlap: int, i: nat)
    requires 0 < size && overlap < size
    requires i < |Windows(s, size, overlap)|
    ensures var start := i * (size - overlap);
      && 0 <= start < |s|
      && Windows(s, size, overlap)[i] == s[start .. Min(start + size, |s|)]
  {
    WindowAt(s, size, overlap, i);
    StartAtIsProduct(i, size - overlap);
  }

  lemma WindowCount<T>(s: seq<T>, size: int, overlap: int)
    requires 0 < size && overlap < size
    ensures |Windows(s, size, overlap)| == CeilDiv(|s|, size - overlap)
  {
    WindowsFromCount(s, 0, size, overlap);
  }

  /** The first `step` elements of every window but the last, then the last
      window whole. */
  function Reassemble<T>(ws: seq<seq<T>>, step: nat): seq<T>
  {
    if |ws| == 0 then []
    else if |ws| == 1 then ws[0]
    else ws[0][..Min(step, |ws[0]|)] + Reassemble(ws[1..], step)
  }

  lemma {:induction false} ReassembleFrom<T>(s: seq<T>, start: nat, size: int, overlap: int)
    requires 0 <= overlap < size && start <= |s|
    ensures Reassemble(WindowsFrom(s, start, size, overlap), size - overlap) == s[start..]
    decreases |s| - start
  {
    var step := size - overlap;
    if start < |s| {
      var next := start + step;
      var w := Slice(s, start, start + size);
      var rest := WindowsFrom(s, next, size, overlap);
      var r := WindowsFrom(s, start, size, overlap);
      assert r == [w] + rest;
      if next >= |s| {
        assert rest == [];
        SliceWindow(s, start, size);
        assert w == s[start..];
      } else {
        ReassembleFrom(s, next, size, overlap);
        SliceWindow(s, start, size);
        assert rest != [] by { assert WindowsFrom(s, next, size, overlap)[0] == Slice(s, next, next + size); }
        assert r[1..] == rest;
        assert w[..Min(step, |w|)] == s[start..next];
        assert s[start..] == s[start..next] + s[next..];
      }
    }
  }

  /** Nothing is lost: with a non-negative overlap the windows, overlaps
      dropped, give back the input. */
  lemma Reconstruct<T>(s: seq<T>, size: int, overlap: int)
    requires 0 <= overlap < size
    ensures Reassemble(Windows(s, size, overlap), size - overlap) == s
  {
    if |s| > 0 {
      ReassembleFrom(s, 0, size, overlap);
    }
  }

  /** With a non-negative overlap the last window reaches the end of the input. */
  lemma LastWindowEndsAtEnd<T>(s: seq<T>, size: int, overlap: int)
    requires 0 <= overlap < size && |s| > 0
    ensures
      var r := Windows(s, size, overlap);
      |r| > 0 && StartAt(|r| - 1, size - overlap) + |r[|r| - 1]| == |s|
  {
    var r := Windows(s, size, overlap);
    var step := size - overlap;
    WindowCount(s, size, overlap);
    var k := |r| - 1;
    WindowAt(s, size, overlap, k);
    StartAtIsProduct(k + 1, step);
    assert |s| <= StartAt(k + 1, step);
  }

  /** A full-length window shares its last `overlap` elements with the first
      `overlap` elements of the next one. */
  lemma OverlapShared<T>(s: seq<T>, size: int, overlap: int, i: nat)
    requires 0 <= overlap < size
    requires i + 1 < |Windows(s, size, overlap)|
    requires |Windows(s, size, overlap)[i]| == size
    ensures
      var r := Windows(s, size, overlap);
      |r[i + 1]| >= overlap && r[i][size - overlap..] == r[i + 1][..overlap]
  {
    var step := size - overlap;
    var r := Windows(s, size, overlap);
    WindowAt(s, size, overlap, i);
    WindowAt(s, size, overlap, i + 1);
    var a := StartAt(i, step);
    var b := StartAt(i + 1, step);
    assert b == a + step;
    assert r[i] == s[a..a + size];
    var e := Min(b + size, |s|);
    assert r[i + 1] == s[b..e];
    assert e - b >= overlap;
    assert r[i][step..] == s[b..a + size];
    assert r[i + 1][..overlap] == s[b..b + overlap];
  }
}
