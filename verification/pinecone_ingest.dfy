/** util/pincone_ingest.py: `batch_upsert`'s partition of the vectors, the
    PDF filter and record pairing of `ingest_file`, and one pass of
    `main_loop` over the data folder. The PDF loader, splitter, embedder,
    uuid source and the index are parameters. */
module PineconeIngest {
  import opened Common
  import opened PyStr
  import opened Chunking
  import PyPath

  const DataFolder := "./data"
  const DefaultBatchSize := 100
  const IngestBatchSize := 50

  /** The slices `to_upsert[i : i + batch_size]` for `i` in
      `range(0, len(to_upsert), batch_size)`; `None` when `range` raises
      (`batch_size == 0`). A negative size gives an empty range. */
  function Batches<T>(xs: seq<T>, batchSize: int := DefaultBatchSize): (r: Option<seq<seq<T>>>)
    ensures r.None? <==> batchSize == 0
    ensures batchSize < 0 ==> r == Some([])
  {
    if batchSize == 0 then None
    else if batchSize < 0 then Some([])
    else Some(Windows(xs, batchSize, 0))
  }

  function Flatten<T>(bs: seq<seq<T>>): seq<T>
  {
    if |bs| == 0 then [] else bs[0] + Flatten(bs[1..])
  }

  lemma {:induction false} FlattenFrom<T>(xs: seq<T>, start: nat, b: int)
    requires 0 < b && start <= |xs|
    ensures Flatten(WindowsFrom(xs, start, b, 0)) == xs[start..]
    decreases |xs| - start
  {
    if start < |xs| {
      var w := Slice(xs, start, start + b);
      var next := start + b;
      if next <= |xs| {
        FlattenFrom(xs, next, b);
        assert w == xs[start..next];
        assert xs[start..] == xs[start..next] + xs[next..];
      } else {
        assert WindowsFrom(xs, next, b, 0) == [];
        assert w == xs[start..];
      }
      assert WindowsFrom(xs, start, b, 0)[1..] == WindowsFrom(xs, next, b, 0);
    }
  }

  /** The batches partition the list: in order they concatenate back to it,
      each has between 1 and `b` elements, all but the last have exactly `b`,
      and there are ⌈n / b⌉ of them (none for an empty list). */
  lemma BatchesPartition<T>(xs: seq<T>, b: int)
    requires 0 < b
    ensures
      var bs := Batches(xs, b).value;
      && Flatten(bs) == xs
      && |bs| == CeilDiv(|xs|, b)
      && (|xs| == 0 ==> bs == [])
      && (forall i :: 0 <= i < |bs| ==> 0 < |bs[i]| <= b)
      && (forall i :: 0 <= i < |bs| - 1 ==> |bs[i]| == b)
  {
    var bs := Batches(xs, b).value;
    if |xs| > 0 {
      FlattenFrom(xs, 0, b);
    }
    WindowCount(xs, b, 0);
    WindowBounds(xs, b, 0);
    forall i | 0 <= i < |bs| ensures 0 < |bs[i]| <= b {
      assert bs[i] in bs;
    }
    BatchesFull(xs, b);
  }

  /** Every batch but the last is full. */
  lemma BatchesFull<T>(xs: seq<T>, b: int)
    requires 0 < b
    ensures var bs := Batches(xs, b).value;
      forall i :: 0 <= i < |bs| - 1 ==> |bs[i]| == b
  {
    var bs := Batches(xs, b).value;
    assert bs == Windows(xs, b, 0);
    forall i | 0 <= i < |bs| - 1 ensures |bs[i]| == b {
      WindowAt(xs, b, 0, i + 1);
      WindowAt(xs, b, 0, i);
      var st := StartAt(i, b);
      assert StartAt(i + 1, b) == st + b;
      assert st + b < |xs|;
      assert Min(st + b, |xs|) == st + b;
    }
  }

  /** One Pinecone record: `(uuid, embedding, {'text': page_content})`. */
  datatype Vector<E> = Vector(id: string, values: E, text: string)

  /** `[(u, e, {'text': d}) for u, e, d in zip(uuids, embeddings, texts)]` */
  function Zip3<E>(uuids: seq<string>, embeddings: seq<E>, texts: seq<string>): (r: seq<Vector<E>>)
    ensures |r| == Min(Min(|uuids|, |embeddings|), |texts|)
    ensures forall i :: 0 <= i < |r| ==> r[i] == Vector(uuids[i], embeddings[i], texts[i])
  {
    if |uuids| == 0 || |embeddings| == 0 || |texts| == 0 then []
    else [Vector(uuids[0], embeddings[0], texts[0])] + Zip3(uuids[1..], embeddings[1..], texts[1..])
  }

  /** `file_path.lower().endswith('.pdf')` */
  predicate IsPdf(path: string)
  {
    EndsWith(Lower(path), ".pdf")
  }

  /** The extension test ignores case: a name and its lower-cased form are
      either both taken or both skipped. */
  lemma PdfFilterIgnoresCase(path: string)
    ensures IsPdf(Lower(path)) == IsPdf(path)
  {
    LowerIdempotent(path);
  }

  datatype Ingest<E> = Skipped | Upserted(calls: seq<seq<Vector<E>>>)

  /** `ingest_file(file_path)` with the split documents' texts, their uuids
      and their embeddings supplied. */
  function IngestFile<E>(path: string, uuids: seq<string>, embeddings: seq<E>, texts: seq<string>): (r: Ingest<E>)
    ensures r.Skipped? <==> !IsPdf(path)
  {
    if !IsPdf(path) then Skipped
    else Upserted(Batches(Zip3(uuids, embeddings, texts), IngestBatchSize).value)
  }

  /** A PDF's records reach the index whole and in order, at most 50 per call. */
  lemma IngestUpsertsAllRecords<E>(path: string, uuids: seq<string>, embeddings: seq<E>, texts: seq<string>)
    requires IsPdf(path)
    ensures
      var calls := IngestFile(path, uuids, embeddings, texts).calls;
      && Flatten(calls) == Zip3(uuids, embeddings, texts)
      && (forall i :: 0 <= i < |calls| ==> 0 < |calls[i]| <= IngestBatchSize)
  {
    BatchesPartition(Zip3(uuids, embeddings, texts), IngestBatchSize);
  }

  /** The filter only looks at the file name: joining it to the data folder
      does not change whether it counts as a PDF. */
  lemma PdfFilterSeesName(name: string)
    ensures IsPdf(PyPath.Join(DataFolder, name)) == IsPdf(name)
  {
    if !StartsWith(name, "/") {
      var folder := "./data/";
      JoinDataFolder(name);
      LowerAppend(folder, name);
      var lf, ln := Lower(folder), Lower(name);
      if |name| >= 4 {
        EndsWithAppend(lf, ln, ".pdf");
      } else {
        assert lf[|lf| - 1] == LowerChar('/') == '/';
        SlashBeforeShortTail(lf, ln);
      }
    }
  }

  lemma JoinDataFolder(name: string)
    requires !StartsWith(name, "/")
    ensures PyPath.Join(DataFolder, name) == "./data/" + name
  {
    assert !EndsWith(DataFolder, "/");
  }

  /** A name shorter than ".pdf" placed after a folder ends with the
      folder's '/' inside its last four characters. */
  lemma SlashBeforeShortTail(folder: string, tail: string)
    requires |folder| >= 4 && folder[|folder| - 1] == '/' && |tail| < 4
    ensures !EndsWith(folder + tail, ".pdf")
  {
    var p := folder + tail;
    var k := 3 - |tail|;
    assert p[|p| - 4 + k] == '/';
    assert ".pdf"[k] != '/';
    assert p[|p| - 4..][k] == p[|p| - 4 + k];
  }

  /** The effects of one pass of `main_loop` over a listing. */
  datatype Action = IngestPath(path: string) | Rename(source: string, target: string)

  /** The name a file has after the pass. */
  function Marked(name: string): string
  {
    if StartsWith(name, "_") then name else "_" + name
  }

  /** Lines 67-73: every name that does not start with "_" is ingested (a
      non-PDF is skipped inside `ingest_file`) and then renamed to "_" + name. */
  function Pass(listing: seq<string>): (r: seq<Action>)
    ensures forall a :: a in r ==>
      (exists n :: n in listing && !StartsWith(n, "_") &&
         (a == IngestPath(PyPath.Join(DataFolder, n)) ||
          a == Rename(PyPath.Join(DataFolder, n), PyPath.Join(DataFolder, "_" + n))))
    ensures forall n :: n in listing && !StartsWith(n, "_") ==>
      IngestPath(PyPath.Join(DataFolder, n)) in r &&
      Rename(PyPath.Join(DataFolder, n), PyPath.Join(DataFolder, "_" + n)) in r
  {
    if |listing| == 0 then []
    else
      var n := listing[0];
      var rest := Pass(listing[1..]);
      assert forall m :: m in listing[1..] ==> m in listing;
      if StartsWith(n, "_") then rest
      else
        var path := PyPath.Join(DataFolder, n);
        [IngestPath(path), Rename(path, PyPath.Join(DataFolder, "_" + n))] + rest
  }

  /** `f` applied to each element in turn, the results concatenated. */
  ghost function ConcatMap<T, U>(f: T -> seq<U>, xs: seq<T>): seq<U>
  {
    if |xs| == 0 then [] else f(xs[0]) + ConcatMap(f, xs[1..])
  }

  lemma {:induction false} ConcatMapAppend<T, U>(f: T -> seq<U>, front: seq<T>, back: seq<T>)
    ensures ConcatMap(f, front + back) == ConcatMap(f, front) + ConcatMap(f, back)
    decreases |front|
  {
    if |front| == 0 {
      assert front + back == back;
    } else {
      assert (front + back)[0] == front[0] && (front + back)[1..] == front[1..] + back;
      ConcatMapAppend(f, front[1..], back);
    }
  }

  lemma {:induction false} ConcatMapAround<T, U>(f: T -> seq<U>, xs: seq<T>, i: nat)
    requires i < |xs|
    ensures ConcatMap(f, xs) == ConcatMap(f, xs[..i]) + f(xs[i]) + ConcatMap(f, xs[i + 1..])
    decreases i
  {
    if i == 0 {
      assert xs[..0] == [];
    } else {
      var tail := xs[1..];
      ConcatMapAround(f, tail, i - 1);
      assert tail[..i - 1] == xs[..i][1..] && tail[i - 1] == xs[i] && tail[i..] == xs[i + 1..];
      assert xs[..i][0] == xs[0];
      var mid := ConcatMap(f, xs[..i][1..]);
      assert ConcatMap(f, xs[..i]) == f(xs[0]) + mid;
      assert f(xs[0]) + (mid + f(xs[i]) + ConcatMap(f, xs[i + 1..]))
          == (f(xs[0]) + mid) + f(xs[i]) + ConcatMap(f, xs[i + 1..]);
    }
  }

  /** What the loop body does for one name. */
  ghost function Step(n: string): seq<Action>
  {
    if StartsWith(n, "_") then []
    else [IngestPath(PyPath.Join(DataFolder, n)),
          Rename(PyPath.Join(DataFolder, n), PyPath.Join(DataFolder, "_" + n))]
  }

  lemma {:induction false} PassIsSteps(listing: seq<string>)
    ensures Pass(listing) == ConcatMap(Step, listing)
    decreases |listing|
  {
    if |listing| > 0 {
      PassFront(listing);
      PassIsSteps(listing[1..]);
    }
  }

  /** A pass over two listings in a row is the pass over the first followed
      by the pass over the second. */
  lemma PassAppend(front: seq<string>, back: seq<string>)
    ensures Pass(front + back) == Pass(front) + Pass(back)
  {
    PassIsSteps(front + back);
    PassIsSteps(front);
    PassIsSteps(back);
    ConcatMapAppend(Step, front, back);
  }

  /** Files are handled one after another in listing order: an unmarked
      name's ingestion comes right after everything done for the names
      before it, its rename comes right after its ingestion, and the names
      after it follow. */
  lemma PassInOrder(listing: seq<string>, i: nat)
    requires i < |listing| && !StartsWith(listing[i], "_")
    ensures var path := PyPath.Join(DataFolder, listing[i]);
      Pass(listing) ==
        Pass(listing[..i]) + [IngestPath(path), Rename(path, PyPath.Join(DataFolder, "_" + listing[i]))]
                           + Pass(listing[i + 1..])
  {
    ConcatMapAround(Step, listing, i);
    PassIsSteps(listing);
    PassIsSteps(listing[..i]);
    PassIsSteps(listing[i + 1..]);
  }

  /** One pass when `ingest_file` may raise: `raises` holds the names whose
      ingestion throws. `main_loop` has no `try`, so the first such name ends
      the script right after its ingestion started, before its rename. */
  datatype PassResult = PassResult(actions: seq<Action>, stopped: Option<string>)

  function PassRaising(listing: seq<string>, raises: set<string>): (r: PassResult)
    ensures r.stopped.None? <==> forall n :: n in listing && !StartsWith(n, "_") ==> n !in raises
    ensures r.stopped.None? ==> r.actions == Pass(listing)
    // the pass ends on a failing name whose ingestion was the last thing done
    ensures r.stopped.Some? ==>
      var n := r.stopped.value;
      && n in listing && n in raises && !StartsWith(n, "_")
      && |r.actions| > 0 && r.actions[|r.actions| - 1] == IngestPath(PyPath.Join(DataFolder, n))
  {
    if |listing| == 0 then PassResult([], None)
    else
      var n := listing[0];
      var rest := PassRaising(listing[1..], raises);
      assert forall m :: m in listing[1..] ==> m in listing;
      assert forall m :: m in listing ==> m == n || m in listing[1..];
      if StartsWith(n, "_") then rest
      else
        var path := PyPath.Join(DataFolder, n);
        if n in raises then PassResult([IngestPath(path)], Some(n))
        else
          var done := [IngestPath(path), Rename(path, PyPath.Join(DataFolder, "_" + n))];
          PassResult(done + rest.actions, rest.stopped)
  }

  /** One step of `Pass`. */
  lemma PassFront(prefix: seq<string>)
    requires |prefix| > 0
    ensures var n := prefix[0];
      Pass(prefix) == if StartsWith(n, "_") then Pass(prefix[1..])
                      else [IngestPath(PyPath.Join(DataFolder, n)),
                            Rename(PyPath.Join(DataFolder, n), PyPath.Join(DataFolder, "_" + n))] + Pass(prefix[1..])
  {
  }

  /** One step of `PassRaising`. */
  lemma PassRaisingFront(listing: seq<string>, raises: set<string>)
    requires |listing| > 0
    ensures var n, rest := listing[0], PassRaising(listing[1..], raises);
      PassRaising(listing, raises) ==
        if StartsWith(n, "_") then rest
        else if n in raises then PassResult([IngestPath(PyPath.Join(DataFolder, n))], Some(n))
        else PassResult([IngestPath(PyPath.Join(DataFolder, n)),
                         Rename(PyPath.Join(DataFolder, n), PyPath.Join(DataFolder, "_" + n))] + rest.actions,
                        rest.stopped)
  {
  }

  /** The step of `PassRaisingStopsAtFirst` past one name that does not
      raise. */
  lemma PassRaisingStep(listing: seq<string>, raises: set<string>, k: nat)
    requires 0 < k < |listing|
    requires !StartsWith(listing[0], "_") ==> listing[0] !in raises
    requires PassRaising(listing[1..], raises).stopped == Some(listing[k])
    requires PassRaising(listing[1..], raises).actions ==
      Pass(listing[1..][..k - 1]) + [IngestPath(PyPath.Join(DataFolder, listing[k]))]
    ensures PassRaising(listing, raises).stopped == Some(listing[k])
    ensures PassRaising(listing, raises).actions ==
      Pass(listing[..k]) + [IngestPath(PyPath.Join(DataFolder, listing[k]))]
  {
    var n, tail := listing[0], listing[1..];
    var last := [IngestPath(PyPath.Join(DataFolder, listing[k]))];
    PassRaisingFront(listing, raises);
    assert listing[..k][0] == n && listing[..k][1..] == tail[..k - 1];
    PassFront(listing[..k]);
    if !StartsWith(n, "_") {
      var done := [IngestPath(PyPath.Join(DataFolder, n)),
                   Rename(PyPath.Join(DataFolder, n), PyPath.Join(DataFolder, "_" + n))];
      assert done + (Pass(tail[..k - 1]) + last) == (done + Pass(tail[..k - 1])) + last;
    }
  }

  /** When the k-th name is the first unmarked one whose ingestion raises,
      the pass did everything a clean pass over the names before it does,
      then started ingesting that file and nothing more: it stays unrenamed
      and the names after it are untouched. */
  lemma {:induction false} PassRaisingStopsAtFirst(listing: seq<string>, raises: set<string>, k: nat)
    requires k < |listing| && !StartsWith(listing[k], "_") && listing[k] in raises
    requires forall j :: 0 <= j < k && !StartsWith(listing[j], "_") ==> listing[j] !in raises
    ensures PassRaising(listing, raises).stopped == Some(listing[k])
    ensures PassRaising(listing, raises).actions ==
      Pass(listing[..k]) + [IngestPath(PyPath.Join(DataFolder, listing[k]))]
    decreases k
  {
    if k == 0 {
      PassRaisingFront(listing, raises);
      assert listing[..0] == [];
    } else {
      var tail := listing[1..];
      assert forall j :: 0 <= j < k - 1 ==> tail[j] == listing[j + 1];
      assert tail[k - 1] == listing[k];
      PassRaisingStopsAtFirst(tail, raises, k - 1);
      PassRaisingStep(listing, raises, k);
    }
  }

  /** A file whose ingestion raised keeps its name, so the next pass
      ingests it again from the start. */
  lemma StoppedFileIngestedAgain(listing: seq<string>, raises: set<string>, next: seq<string>)
    requires PassRaising(listing, raises).stopped.Some?
    requires PassRaising(listing, raises).stopped.value in next
    ensures IngestPath(PyPath.Join(DataFolder, PassRaising(listing, raises).stopped.value)) in Pass(next)
  {
  }

  /** The folder's names after the pass (renames onto an existing name
      replace it, so the listing is a set). */
  function AfterPass(listing: seq<string>): set<string>
  {
    set n | n in listing :: Marked(n)
  }

  lemma MarkedIsMarked(n: string)
    ensures StartsWith(Marked(n), "_")
  {
    if !StartsWith(n, "_") {
      assert ("_" + n)[..1] == "_";
    }
  }

  lemma {:induction false} PassSkipsMarked(listing: seq<string>)
    requires forall n :: n in listing ==> StartsWith(n, "_")
    ensures Pass(listing) == []
  {
    if |listing| > 0 {
      assert listing[0] in listing;
      assert forall m :: m in listing[1..] ==> m in listing;
      PassSkipsMarked(listing[1..]);
    }
  }

  /** The pass is idempotent: a second pass over the resulting folder, in
      any order, ingests and renames nothing. */
  lemma SecondPassDoesNothing(listing: seq<string>, next: seq<string>)
    requires forall n :: n in next ==> n in AfterPass(listing)
    ensures Pass(next) == []
  {
    forall n | n in next ensures StartsWith(n, "_") {
      var m :| m in listing && Marked(m) == n;
      MarkedIsMarked(m);
    }
    PassSkipsMarked(next);
  }
}
