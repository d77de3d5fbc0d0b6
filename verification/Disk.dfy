/** The torrent's output files, seen both as a list of files and as one flat byte array
    (src/peer_wire/disk_writer.cpp). */
module Disk {
  import opened Common

  type Byte = bv8

  const TWO32: nat := 0x1_0000_0000

  datatype FileEntry = FileEntry(length: nat, offset: nat)

  datatype Layout = Layout(pieceSize: nat, total: nat, files: seq<FileEntry>)

  datatype DiskError =
    | NoPieceSize | NoTotal | NoFiles | LayoutMismatch
    | NotPreallocated | IndexOutOfRange | SizeMismatch | IoFailure | NotFullyMapped

  /** What one file operation meets: success, a file that cannot be opened, or a write that
      fails after leaving arbitrary bytes in the chunk it was writing. */
  datatype Io = Good | OpenFails | Torn(garbage: seq<Byte>)

  // ---------------------------------------------------------------------------
  // Layout
  // ---------------------------------------------------------------------------

  /** Where file k starts; the end of the last file for k == |files|. */
  function OffsetAt(files: seq<FileEntry>, k: nat): (o: nat)
    requires k <= |files|
  {
    if k == 0 then 0 else OffsetAt(files, k - 1) + files[k - 1].length
  }

  predicate Contiguous(files: seq<FileEntry>) {
    forall k {:trigger files[k].offset} :: 0 <= k < |files| ==> files[k].offset == OffsetAt(files, k)
  }

  lemma {:induction false} OffsetOfPrefix(files: seq<FileEntry>, more: seq<FileEntry>, k: nat)
    requires k <= |files|
    ensures OffsetAt(files + more, k) == OffsetAt(files, k)
  {
    if k > 0 {
      OffsetOfPrefix(files, more, k - 1);
    }
  }

  lemma NothingContiguous()
    ensures Contiguous([])
  {
  }

  lemma ContiguousExtend(files: seq<FileEntry>, f: FileEntry)
    requires Contiguous(files) && f.offset == OffsetAt(files, |files|)
    ensures Contiguous(files + [f])
    ensures OffsetAt(files + [f], |files| + 1) == f.offset + f.length
  {
    forall k | 0 <= k <= |files|
      ensures (files + [f])[k].offset == OffsetAt(files + [f], k)
    {
      OffsetOfPrefix(files, [f], k);
    }
  }

  predicate ValidLayout(l: Layout) {
    && 0 < l.pieceSize < TWO32
    && 0 < l.total
    && l.files != []
    && Contiguous(l.files)
    && OffsetAt(l.files, |l.files|) == l.total
  }

  /** Every file has the length the layout gives it. */
  predicate Shaped(l: Layout, contents: seq<seq<Byte>>) {
    && |contents| == |l.files|
    && forall k :: 0 <= k < |contents| ==> |contents[k]| == l.files[k].length
  }

  function PieceOffset(l: Layout, index: nat): (o: nat) {
    index * l.pieceSize
  }

  predicate InRange(l: Layout, index: nat) {
    PieceOffset(l, index) < l.total
  }

  function PieceLength(l: Layout, index: nat): (n: nat)
    requires InRange(l, index)
  {
    Min(PieceOffset(l, index) + l.pieceSize, l.total) - PieceOffset(l, index)
  }

  /** The bytes of one piece in the flat view. */
  function PieceBytes(l: Layout, flat: seq<Byte>, index: nat): (bytes: seq<Byte>)
    requires InRange(l, index) && |flat| == l.total
  {
    flat[PieceOffset(l, index)..PieceOffset(l, index) + PieceLength(l, index)]
  }

  // ---------------------------------------------------------------------------
  // The flat view
  // ---------------------------------------------------------------------------

  function Flat(contents: seq<seq<Byte>>): (flat: seq<Byte>) {
    if contents == [] then [] else Flat(contents[..|contents| - 1]) + contents[|contents| - 1]
  }

  function Zeros(n: nat): (zs: seq<Byte>)
    ensures |zs| == n && AllZero(zs)
  {
    seq(n, _ => 0)
  }

  predicate AllZero(s: seq<Byte>) {
    forall p :: 0 <= p < |s| ==> s[p] == 0
  }

  lemma ZerosExtend(contents: seq<seq<Byte>>, n: nat)
    requires AllZero(Flat(contents))
    ensures AllZero(Flat(contents + [Zeros(n)]))
  {
    assert (contents + [Zeros(n)])[..|contents|] == contents;
  }

  function Patch(s: seq<Byte>, at: nat, data: seq<Byte>): (r: seq<Byte>)
    requires at + |data| <= |s|
    ensures |r| == |s|
  {
    s[..at] + data + s[at + |data|..]
  }

  /** Right behind a range, a patch extends it. */
  lemma PatchBehind(s: seq<Byte>, base: nat, pos: nat, data: seq<Byte>)
    requires base + pos + |data| <= |s|
    ensures Patch(s, base + pos, data)[base..base + pos + |data|] == s[base..base + pos] + data
  {
    var r := Patch(s, base + pos, data);
    assert r[base..base + pos + |data|] == r[base..base + pos] + r[base + pos..base + pos + |data|];
  }

  lemma PatchElsewhere(s: seq<Byte>, at: nat, data: seq<Byte>)
    requires at + |data| <= |s|
    ensures forall p :: 0 <= p < |s| && !(at <= p < at + |data|) ==> Patch(s, at, data)[p] == s[p]
  {
  }

  lemma {:induction false} FlatConcat(a: seq<seq<Byte>>, b: seq<seq<Byte>>)
    ensures Flat(a + b) == Flat(a) + Flat(b)
  {
    if b == [] {
      assert a + b == a;
    } else {
      var n := |b| - 1;
      FlatConcat(a, b[..n]);
      assert (a + b)[..|a + b| - 1] == a + b[..n];
      assert Flat(a + b) == Flat(a + b[..n]) + b[n];
      assert Flat(b) == Flat(b[..n]) + b[n];
      hide Flat;
      ConcatAssoc(Flat(a), Flat(b[..n]), b[n]);
    }
  }

  lemma {:induction false} FlatLength(l: Layout, contents: seq<seq<Byte>>, k: nat)
    requires Contiguous(l.files) && Shaped(l, contents) && k <= |contents|
    ensures |Flat(contents[..k])| == OffsetAt(l.files, k)
    ensures k < |contents| ==> |Flat(contents[..k])| == l.files[k].offset && |contents[k]| == l.files[k].length
  {
    if k > 0 {
      FlatLength(l, contents, k - 1);
      assert contents[..k][..k - 1] == contents[..k - 1];
    }
  }

  lemma FlatTotal(l: Layout, contents: seq<seq<Byte>>)
    requires ValidLayout(l) && Shaped(l, contents)
    ensures |Flat(contents)| == l.total
  {
    FlatLength(l, contents, |contents|);
    assert contents[..|contents|] == contents;
  }

  lemma FlatMiddle(a: seq<seq<Byte>>, x: seq<Byte>, b: seq<seq<Byte>>)
    ensures Flat(a + [x] + b) == Flat(a) + x + Flat(b)
  {
    FlatConcat(a + [x], b);
    assert (a + [x])[..|a|] == a;
    assert Flat(a + [x]) == Flat(a) + x;
    hide Flat;
  }

  lemma FlatSplit(contents: seq<seq<Byte>>, k: nat)
    requires k < |contents|
    ensures Flat(contents) == Flat(contents[..k]) + contents[k] + Flat(contents[k + 1..])
  {
    hide Flat;
    var a, x, b := contents[..k], contents[k], contents[k + 1..];
    SplitAt(contents, k);
    FlatMiddle(a, x, b);
  }

  lemma PatchMiddle(a: seq<Byte>, x: seq<Byte>, b: seq<Byte>, start: nat, data: seq<Byte>)
    requires start + |data| <= |x|
    ensures a + Patch(x, start, data) + b == Patch(a + x + b, |a| + start, data)
  {
    var whole := a + x + b;
    assert whole[..|a| + start] == a + x[..start];
    assert whole[|a| + start + |data|..] == x[start + |data|..] + b;
  }

  lemma FlatPatch(contents: seq<seq<Byte>>, k: nat, start: nat, data: seq<Byte>)
    requires k < |contents| && start + |data| <= |contents[k]|
    ensures |Flat(contents[..k])| + start + |data| <= |Flat(contents)|
    ensures Flat(contents[k := Patch(contents[k], start, data)])
         == Patch(Flat(contents), |Flat(contents[..k])| + start, data)
  {
    hide Flat;
    var a, b := contents[..k], contents[k + 1..];
    var x := Patch(contents[k], start, data);
    assert contents[k := x] == a + [x] + b;
    FlatSplit(contents, k);
    FlatMiddle(a, x, b);
    PatchMiddle(Flat(a), contents[k], Flat(b), start, data);
  }

  /** Writing inside one file is writing at the shifted position of the flat view. */
  lemma FilePatch(l: Layout, contents: seq<seq<Byte>>, k: nat, start: nat, data: seq<Byte>)
    requires Contiguous(l.files) && Shaped(l, contents) && k < |contents|
    requires start + |data| <= l.files[k].length
    ensures l.files[k].offset + start + |data| <= |Flat(contents)|
    ensures Shaped(l, contents[k := Patch(contents[k], start, data)])
    ensures Flat(contents[k := Patch(contents[k], start, data)])
         == Patch(Flat(contents), l.files[k].offset + start, data)
  {
    hide Flat, OffsetAt;
    FlatLength(l, contents, k);
    FlatPatch(contents, k, start, data);
  }

  lemma SliceMiddle(a: seq<Byte>, x: seq<Byte>, b: seq<Byte>, start: nat, chunk: nat)
    requires start + chunk <= |x|
    ensures (a + x + b)[|a| + start..|a| + start + chunk] == x[start..start + chunk]
  {
  }

  /** File k holds the flat range that starts at its offset. */
  lemma FileSlice(l: Layout, contents: seq<seq<Byte>>, k: nat, start: nat, chunk: nat)
    requires Contiguous(l.files) && Shaped(l, contents) && k < |contents|
    requires start + chunk <= l.files[k].length
    ensures start + chunk <= |contents[k]|
    ensures l.files[k].offset + start + chunk <= |Flat(contents)|
    ensures contents[k][start..start + chunk]
         == Flat(contents)[l.files[k].offset + start..l.files[k].offset + start + chunk]
  {
    hide Flat, OffsetAt;
    FlatLength(l, contents, k);
    FlatSplit(contents, k);
    SliceMiddle(Flat(contents[..k]), contents[k], Flat(contents[k + 1..]), start, chunk);
  }

  lemma PatchExtend(s: seq<Byte>, at: nat, data: seq<Byte>, p: nat, c: nat)
    requires at + |data| <= |s| && p + c <= |data|
    ensures Patch(Patch(s, at, data[..p]), at + p, data[p..p + c]) == Patch(s, at, data[..p + c])
  {
  }

  // ---------------------------------------------------------------------------
  // One iteration of the read and write loops
  // ---------------------------------------------------------------------------

  datatype Visit = Skip | Stop | Touch(start: nat, chunk: nat)

  /** What the loop over files does at file f when `remaining` bytes are due from `at`. */
  function VisitFile(f: FileEntry, at: nat, remaining: nat): (v: Visit) {
    if at >= f.offset + f.length then Skip
    else if at + remaining <= f.offset then Stop
    else
      var start := if at > f.offset then at - f.offset else 0;
      Touch(start, Min(remaining, f.length - start))
  }

  /** The loop has reached file k with the bytes up to `pos` of `len` done. */
  predicate Reached(l: Layout, k: nat, base: nat, pos: nat, len: nat) {
    && k <= |l.files|
    && pos <= len
    && (pos < len ==> OffsetAt(l.files, k) <= base + pos)
  }

  /** Once at a file that still has bytes due, the loop never stops early, stays inside the
      file, and hands the next file a position it has reached. */
  lemma VisitAdvances(l: Layout, k: nat, base: nat, pos: nat, len: nat)
    requires Contiguous(l.files) && Reached(l, k, base, pos, len)
    requires k < |l.files| && pos < len
    ensures var v := VisitFile(l.files[k], base + pos, len - pos);
            match v
            case Skip => Reached(l, k + 1, base, pos, len)
            case Stop => false
            case Touch(start, chunk) =>
              && l.files[k].offset + start == base + pos
              && start + chunk <= l.files[k].length
              && 0 < chunk
              && pos + chunk <= len
              && Reached(l, k + 1, base, pos + chunk, len)
  {
  }

  lemma LoopStart(l: Layout, original: seq<Byte>, base: nat, data: seq<Byte>)
    requires base + |data| <= |original|
    ensures Reached(l, 0, base, 0, |data|)
    ensures Patch(original, base, data[..0]) == original
  {
  }

  /** After the last file nothing is left over: the piece lies inside the torrent. */
  lemma LoopEnd(l: Layout, k: nat, base: nat, pos: nat, len: nat)
    requires ValidLayout(l) && Reached(l, k, base, pos, len) && base + len <= l.total
    requires k == |l.files| || pos == len
    ensures pos == len
  {
  }

  /** The file holds bytes of the piece. */
  predicate Touched(l: Layout, index: nat, k: nat)
    requires InRange(l, index) && k < |l.files|
  {
    && l.files[k].length > 0
    && PieceOffset(l, index) < l.files[k].offset + l.files[k].length
    && l.files[k].offset < PieceOffset(l, index) + PieceLength(l, index)
  }

  /** What is done lies in the files before k. */
  predicate Caught(l: Layout, k: nat, base: nat, pos: nat)
    requires k <= |l.files|
  {
    pos == 0 || base + pos <= OffsetAt(l.files, k)
  }

  /** The loop touches exactly the files that hold bytes of the piece. */
  lemma VisitTouched(l: Layout, index: nat, k: nat, pos: nat)
    requires ValidLayout(l) && InRange(l, index) && k < |l.files| && pos < PieceLength(l, index)
    requires Reached(l, k, PieceOffset(l, index), pos, PieceLength(l, index)) && Caught(l, k, PieceOffset(l, index), pos)
    ensures var v := VisitFile(l.files[k], PieceOffset(l, index) + pos, PieceLength(l, index) - pos);
            && (v.Touch? <==> Touched(l, index, k))
            && Caught(l, k + 1, PieceOffset(l, index), if v.Touch? then pos + v.chunk else pos)
  {
    hide PieceOffset, PieceLength, InRange;
    VisitAdvances(l, k, PieceOffset(l, index), pos, PieceLength(l, index));
  }

  lemma NothingCaught(l: Layout, base: nat)
    ensures Caught(l, 0, base, 0)
  {
  }

  lemma {:induction false} OffsetsGrow(files: seq<FileEntry>, k: nat, j: nat)
    requires k <= j <= |files|
    ensures OffsetAt(files, k) <= OffsetAt(files, j)
  {
    if k < j {
      OffsetsGrow(files, k, j - 1);
    }
  }

  /** Once the piece is done no later file holds bytes of it. */
  lemma RestUntouched(l: Layout, index: nat, k: nat)
    requires ValidLayout(l) && InRange(l, index) && k <= |l.files|
    requires PieceLength(l, index) > 0 && Caught(l, k, PieceOffset(l, index), PieceLength(l, index))
    ensures forall j :: k <= j < |l.files| ==> !Touched(l, index, j)
  {
    hide PieceOffset, PieceLength, InRange, OffsetAt;
    forall j | k <= j < |l.files|
      ensures !Touched(l, index, j)
    {
      OffsetsGrow(l.files, k, j);
      assert l.files[j].offset == OffsetAt(l.files, j);
    }
  }

  /** One touched file of the write loop: the flat view gains exactly the chunk. */
  lemma WriteVisit(l: Layout, contents: seq<seq<Byte>>, original: seq<Byte>,
                   k: nat, base: nat, pos: nat, data: seq<Byte>, start: nat, chunk: nat, bytes: seq<Byte>)
    requires Contiguous(l.files) && Shaped(l, contents) && Reached(l, k, base, pos, |data|)
    requires k < |l.files| && pos < |data| && base + |data| <= |original|
    requires VisitFile(l.files[k], base + pos, |data| - pos) == Touch(start, chunk)
    requires Flat(contents) == Patch(original, base, data[..pos])
    requires |bytes| == chunk
    ensures Reached(l, k + 1, base, pos + chunk, |data|)
    ensures start + chunk <= |contents[k]|
    ensures Shaped(l, contents[k := Patch(contents[k], start, bytes)])
    ensures var flat := Flat(contents[k := Patch(contents[k], start, bytes)]);
            && (bytes == data[pos..pos + chunk] ==> flat == Patch(original, base, data[..pos + chunk]))
            && |flat| == |original|
            && forall p :: 0 <= p < |flat| && !(base <= p < base + |data|) ==> flat[p] == original[p]
  {
    hide Flat, OffsetAt;
    VisitAdvances(l, k, base, pos, |data|);
    FilePatch(l, contents, k, start, bytes);
    PatchExtend(original, base, data, pos, chunk);
  }

  /** One chunk read: the buffer stays the flat range it stands for. */
  lemma ReadVisit(l: Layout, contents: seq<seq<Byte>>, k: nat, base: nat, out: seq<Byte>, start: nat, chunk: nat)
    requires ValidLayout(l) && Shaped(l, contents) && k < |l.files| && start + chunk <= l.files[k].length
    requires base + |out| == l.files[k].offset + start && base + |out| + chunk <= |Flat(contents)|
    requires out == Flat(contents)[base..base + |out|]
    ensures start + chunk <= |contents[k]|
    ensures out + contents[k][start..start + chunk] == Flat(contents)[base..base + |out| + chunk]
  {
    hide Flat, OffsetAt;
    FileSlice(l, contents, k, start, chunk);
  }

  lemma PieceFits(l: Layout, index: nat)
    requires ValidLayout(l) && InRange(l, index)
    ensures PieceOffset(l, index) + PieceLength(l, index) <= l.total
    ensures 0 < PieceLength(l, index) <= l.pieceSize
  {
  }

  lemma MulStep(i: nat, j: nat, m: nat)
    requires i < j
    ensures i * m + m <= j * m
  {
    assert j * m == i * m + m + (j - i - 1) * m;
  }

  lemma PiecesOrdered(l: Layout, i: nat, j: nat)
    requires ValidLayout(l) && i < j && InRange(l, j)
    ensures InRange(l, i)
    ensures PieceOffset(l, i) + PieceLength(l, i) <= PieceOffset(l, j)
    ensures PieceLength(l, i) == l.pieceSize
  {
    MulStep(i, j, l.pieceSize);
  }

  /** Different pieces occupy disjoint ranges. */
  lemma PiecesDisjoint(l: Layout, i: nat, j: nat)
    requires ValidLayout(l) && i != j && InRange(l, i) && InRange(l, j)
    ensures || PieceOffset(l, i) + PieceLength(l, i) <= PieceOffset(l, j)
            || PieceOffset(l, j) + PieceLength(l, j) <= PieceOffset(l, i)
  {
    if i < j {
      PiecesOrdered(l, i, j);
    } else {
      PiecesOrdered(l, j, i);
    }
  }

  /** Changing bytes only inside piece j leaves every other piece as it was. */
  lemma OtherPiecesUntouched(l: Layout, before: seq<Byte>, after: seq<Byte>, j: nat, i: nat)
    requires ValidLayout(l) && i != j && InRange(l, i) && InRange(l, j)
    requires SameOutside(l, before, after, j)
    ensures PieceBytes(l, after, i) == PieceBytes(l, before, i)
  {
    PiecesDisjoint(l, i, j);
  }

  /** Two disk images agree everywhere except possibly inside piece j. */
  predicate SameOutside(l: Layout, before: seq<Byte>, after: seq<Byte>, j: nat)
    requires InRange(l, j)
  {
    && |before| == |after| == l.total
    && forall p :: 0 <= p < l.total
         && !(PieceOffset(l, j) <= p < PieceOffset(l, j) + PieceLength(l, j))
         ==> after[p] == before[p]
  }

  predicate OverlapsRange(f: FileEntry, begin: nat, end: nat) {
    f.offset < end && begin < f.offset + f.length
  }

  /** The file indices that overlap a byte range, in the order the scan finds them. */
  function FileIndices(files: seq<FileEntry>, begin: nat, end: nat): (ks: seq<nat>) {
    if files == [] then []
    else
      var n := |files| - 1;
      var ks := FileIndices(files[..n], begin, end);
      if end <= files[n].offset || begin >= files[n].offset + files[n].length then ks else ks + [n]
  }

  predicate Ascending(ks: seq<nat>) {
    forall i, j :: 0 <= i < j < |ks| ==> ks[i] < ks[j]
  }

  lemma {:induction false} FileIndicesSpec(files: seq<FileEntry>, begin: nat, end: nat)
    ensures Ascending(FileIndices(files, begin, end))
    ensures forall k :: k in FileIndices(files, begin, end) <==>
              (0 <= k < |files| && OverlapsRange(files[k], begin, end))
  {
    hide Ascending;
    if files == [] {
      NoneAscending();
    } else {
      var n := |files| - 1;
      var ks := FileIndices(files[..n], begin, end);
      FileIndicesSpec(files[..n], begin, end);
      AscendingSnoc(ks, n);
    }
  }

  lemma NoneAscending()
    ensures Ascending([])
  {
  }

  lemma AscendingSnoc(ks: seq<nat>, n: nat)
    requires Ascending(ks) && forall k :: k in ks ==> k < n
    ensures Ascending(ks + [n])
  {
    forall i, j | 0 <= i < j < |ks + [n]|
      ensures (ks + [n])[i] < (ks + [n])[j]
    {
      assert ks[i] in ks;
    }
  }

  lemma FileIndicesStep(files: seq<FileEntry>, begin: nat, end: nat, i: nat)
    requires i < |files|
    ensures FileIndices(files[..i + 1], begin, end)
         == FileIndices(files[..i], begin, end) + (if OverlapsRange(files[i], begin, end) then [i] else [])
  {
    assert files[..i + 1][..i] == files[..i];
  }

  function FilesOf(l: Layout, index: nat): (ks: seq<nat>)
    requires InRange(l, index)
  {
    FileIndices(l.files, PieceOffset(l, index), PieceOffset(l, index) + PieceLength(l, index))
  }

  /** The locked set of a piece, in ascending order, is the set of files its range overlaps. */
  lemma FilesOfSpec(l: Layout, index: nat)
    requires InRange(l, index)
    ensures Ascending(FilesOf(l, index))
    ensures forall i :: 0 <= i < |FilesOf(l, index)| ==> FilesOf(l, index)[i] < |l.files|
    ensures forall k :: k in FilesOf(l, index) <==>
              (0 <= k < |l.files|
               && OverlapsRange(l.files[k], PieceOffset(l, index), PieceOffset(l, index) + PieceLength(l, index)))
  {
    FileIndicesSpec(l.files, PieceOffset(l, index), PieceOffset(l, index) + PieceLength(l, index));
    forall i | 0 <= i < |FilesOf(l, index)|
      ensures FilesOf(l, index)[i] < |l.files|
    {
      assert FilesOf(l, index)[i] in FilesOf(l, index);
    }
  }

  /** Every file that a read or a write of any part of a piece touches is in its locked set. */
  lemma TouchesOnlyItsFiles(l: Layout, index: nat, k: nat, pos: nat)
    requires InRange(l, index) && k < |l.files| && pos < PieceLength(l, index)
    requires VisitFile(l.files[k], PieceOffset(l, index) + pos, PieceLength(l, index) - pos).Touch?
    ensures k in FilesOf(l, index)
  {
    FilesOfSpec(l, index);
  }

  /** Read-after-write returns the data; every other piece keeps its bytes. */
  lemma WriteThenRead(l: Layout, flat: seq<Byte>, index: nat, data: seq<Byte>)
    requires ValidLayout(l) && InRange(l, index) && |flat| == l.total && |data| == PieceLength(l, index)
    ensures PieceOffset(l, index) + |data| <= l.total
    ensures PieceBytes(l, Patch(flat, PieceOffset(l, index), data), index) == data
    ensures forall j :: 0 <= j && j != index && InRange(l, j) ==>
              PieceBytes(l, Patch(flat, PieceOffset(l, index), data), j) == PieceBytes(l, flat, j)
  {
    PieceFits(l, index);
    var after := Patch(flat, PieceOffset(l, index), data);
    assert PieceBytes(l, after, index) == data;
    forall j | 0 <= j && j != index && InRange(l, j)
      ensures PieceBytes(l, after, j) == PieceBytes(l, flat, j)
    {
      OtherPiecesUntouched(l, flat, after, index, j);
    }
  }

  // ---------------------------------------------------------------------------
  // The disk writer
  // ---------------------------------------------------------------------------

  /** The constructor: running offsets, and the four ways a layout is refused. */
  method BuildLayout(pieceSize: nat, total: nat, lengths: seq<nat>) returns (r: Result<Layout, DiskError>)
    requires pieceSize < TWO32
    ensures r.Ok? ==> ValidLayout(r.value) && r.value.pieceSize == pieceSize && r.value.total == total
    ensures r.Ok? ==> |r.value.files| == |lengths|
    ensures r.Ok? ==> forall k :: 0 <= k < |lengths| ==> r.value.files[k].length == lengths[k]
    ensures r.Ok? <==> 0 < pieceSize && 0 < total && lengths != [] && Sum(lengths) == total
  {
    if pieceSize == 0 { return Err(NoPieceSize); }
    if total == 0 { return Err(NoTotal); }
    var files: seq<FileEntry> := [];
    var running := 0;
    NothingContiguous();
    assert OffsetAt(files, 0) == 0 && Sum(lengths[..0]) == 0;
    hide Contiguous, OffsetAt, Sum;
    for k := 0 to |lengths|
      invariant |files| == k && Contiguous(files)
      invariant running == OffsetAt(files, k) == Sum(lengths[..k])
      invariant forall j :: 0 <= j < k ==> files[j].length == lengths[j]
    {
      SumSnoc(lengths, k);
      ContiguousExtend(files, FileEntry(lengths[k], running));
      files := files + [FileEntry(lengths[k], running)];
      running := running + lengths[k];
    }
    assert lengths[..|lengths|] == lengths;
    if files == [] { return Err(NoFiles); }
    if running != total { return Err(LayoutMismatch); }
    return Ok(Layout(pieceSize, total, files));
  }

  /** The files at their final lengths, all zero. */
  function ZeroFiles(files: seq<FileEntry>): (contents: seq<seq<Byte>>) {
    if files == [] then [] else ZeroFiles(files[..|files| - 1]) + [Zeros(files[|files| - 1].length)]
  }

  lemma {:induction false} ZeroFilesSpec(files: seq<FileEntry>)
    ensures |ZeroFiles(files)| == |files| && AllZero(Flat(ZeroFiles(files)))
    ensures forall k :: 0 <= k < |files| ==> |ZeroFiles(files)[k]| == files[k].length
  {
    hide Flat, AllZero;
    if files == [] {
      assert AllZero(Flat([])) by { NothingIsZero(); }
    } else {
      var n := |files| - 1;
      ZeroFilesSpec(files[..n]);
      ZerosExtend(ZeroFiles(files[..n]), files[n].length);
    }
  }

  lemma NothingIsZero()
    ensures AllZero(Flat([]))
  {
  }

  /** The loop of preallocate_files: creates files until one cannot be created. */
  method CreateFiles(files: seq<FileEntry>, io: nat -> bool) returns (created: seq<seq<Byte>>, k: nat)
    ensures k <= |files| && created == ZeroFiles(files[..k])
    ensures forall j :: 0 <= j < k ==> io(j)
    ensures k == |files| || !io(k)
  {
    created, k := [], 0;
    while k < |files| && io(k)
      invariant k <= |files| && created == ZeroFiles(files[..k])
      invariant forall j :: 0 <= j < k ==> io(j)
    {
      assert files[..k + 1][..k] == files[..k];
      created := created + [Zeros(files[k].length)];
      k := k + 1;
    }
  }

  class DiskWriter {
    const layout: Layout
    var contents: seq<seq<Byte>>
    var preallocated: bool

    ghost predicate Valid() reads this {
      ValidLayout(layout) && (preallocated ==> Shaped(layout, contents))
    }

    constructor (l: Layout)
      requires ValidLayout(l)
      ensures Valid() && layout == l && !preallocated
    {
      layout := l;
      contents := [];
      preallocated := false;
    }

    /** Creates every file at its final length, filled with zeros; `io` says which can be created and
        sized. A failure leaves the flag as it was. */
    method PreallocateFiles(io: nat -> bool) returns (r: Result<(), DiskError>)
      requires Valid()
      modifies this
      ensures r.Ok? <==> forall k :: 0 <= k < |layout.files| ==> io(k)
      ensures r.Ok? ==> Valid() && preallocated && AllZero(Flat(contents)) && |Flat(contents)| == layout.total
      ensures r.Err? ==> r.error == IoFailure && preallocated == old(preallocated) && (!preallocated ==> Valid())
    {
      hide Flat, ValidLayout, AllZero, ZeroFiles;
      var created, k := CreateFiles(layout.files, io);
      contents := created;
      if k < |layout.files| {
        return Err(IoFailure);
      }
      assert layout.files[..k] == layout.files;
      ZeroFilesSpec(layout.files);
      FlatTotal(layout, contents);
      preallocated := true;
      return Ok(());
    }

    /** The scan that decides which mutexes to take. */
    method FileIndicesForPiece(index: nat) returns (ks: seq<nat>)
      requires Valid() && InRange(layout, index)
      ensures ks == FilesOf(layout, index)
    {
      var begin := PieceOffset(layout, index);
      var end := begin + PieceLength(layout, index);
      ks := [];
      for i := 0 to |layout.files|
        invariant ks == FileIndices(layout.files[..i], begin, end)
      {
        FileIndicesStep(layout.files, begin, end, i);
        var f := layout.files[i];
        if !(end <= f.offset || begin >= f.offset + f.length) {
          ks := ks + [i];
        }
      }
      assert layout.files[..|layout.files|] == layout.files;
    }

    /** The write loop. Success is a slice update of the flat view; failure can only have
        disturbed the piece's own range; the "did not fully map" error never happens. */
    method WritePiece(index: nat, data: seq<Byte>, io: nat -> Io) returns (r: Result<(), DiskError>)
      requires Valid()
      modifies this`contents
      ensures Valid() && preallocated == old(preallocated)
      ensures r.Err? ==> r.error in {NotPreallocated, IndexOutOfRange, SizeMismatch, IoFailure}
      ensures r.Err? && r.error != IoFailure ==> contents == old(contents)
      ensures r == Err(NotPreallocated) <==> !preallocated
      ensures r == Err(IndexOutOfRange) <==> preallocated && !InRange(layout, index)
      ensures r == Err(SizeMismatch)
              <==> preallocated && InRange(layout, index) && |data| != PieceLength(layout, index)
      ensures r.Ok? ==> PieceOffset(layout, index) + |data| <= |Flat(old(contents))| == layout.total
      ensures r.Ok? ==> Flat(contents) == Patch(Flat(old(contents)), PieceOffset(layout, index), data)
      ensures r == Err(IoFailure) ==> SameOutside(layout, Flat(old(contents)), Flat(contents), index)
      ensures r == Err(IoFailure)
              <==> preallocated && InRange(layout, index) && |data| == PieceLength(layout, index)
                   && exists k :: 0 <= k < |layout.files| && Touched(layout, index, k) && !io(k).Good?
    {
      hide Flat, OffsetAt, Patch, Touched, Caught, VisitFile;
      if !preallocated { return Err(NotPreallocated); }
      if !InRange(layout, index) { return Err(IndexOutOfRange); }
      if |data| != PieceLength(layout, index) { return Err(SizeMismatch); }
      PieceFits(layout, index);
      FlatTotal(layout, contents);
      var base, pos, k := PieceOffset(layout, index), 0, 0;
      ghost var original := Flat(contents);
      LoopStart(layout, original, base, data);
      NothingCaught(layout, base);
      while k < |layout.files| && pos < |data|
        invariant Reached(layout, k, base, pos, |data|)
        invariant Shaped(layout, contents)
        invariant Flat(contents) == Patch(original, base, data[..pos])
        invariant SameOutside(layout, original, Flat(contents), index)
        invariant Caught(layout, k, base, pos)
        invariant forall j :: 0 <= j < k && Touched(layout, index, j) ==> io(j).Good?
      {
        VisitAdvances(layout, k, base, pos, |data|);
        VisitTouched(layout, index, k, pos);
        match VisitFile(layout.files[k], base + pos, |data| - pos) {
          case Skip =>
          case Touch(start, chunk) =>
            var result := io(k);
            if result.OpenFails? { return Err(IoFailure); }
            var bytes := if result.Torn? && |result.garbage| == chunk then result.garbage
                         else data[pos..pos + chunk];
            WriteVisit(layout, contents, original, k, base, pos, data, start, chunk, bytes);
            contents := contents[k := Patch(contents[k], start, bytes)];
            if result.Torn? { return Err(IoFailure); }
            pos := pos + chunk;
        }
        k := k + 1;
      }
      LoopEnd(layout, k, base, pos, |data|);
      RestUntouched(layout, index, k);
      assert data[..|data|] == data;
      return Ok(());
    }

    /** The read loop: a slice of the flat view. */
    method ReadPiece(index: nat, io: nat -> Io) returns (r: Result<seq<Byte>, DiskError>)
      requires Valid()
      ensures r == Err(NotPreallocated) <==> !preallocated
      ensures r == Err(IndexOutOfRange) <==> preallocated && !InRange(layout, index)
      ensures r.Ok? ==> |Flat(contents)| == layout.total && InRange(layout, index)
      ensures r.Ok? ==> r.value == PieceBytes(layout, Flat(contents), index)
      ensures r == Err(IoFailure)
              <==> preallocated && InRange(layout, index)
                   && exists k :: 0 <= k < |layout.files| && Touched(layout, index, k) && !io(k).Good?
      ensures r.Err? ==> r.error in {NotPreallocated, IndexOutOfRange, IoFailure}
    {
      hide Flat, OffsetAt, VisitFile, Touched, Caught;
      if !preallocated { return Err(NotPreallocated); }
      if !InRange(layout, index) { return Err(IndexOutOfRange); }
      PieceFits(layout, index);
      FlatTotal(layout, contents);
      var len := PieceLength(layout, index);
      var base, out: seq<Byte>, k := PieceOffset(layout, index), [], 0;
      ghost var flat := Flat(contents);
      LoopStart(layout, flat, base, seq(len, _ => 0));
      NothingCaught(layout, base);
      while k < |layout.files| && |out| < len
        invariant Reached(layout, k, base, |out|, len)
        invariant out == flat[base..base + |out|]
        invariant Caught(layout, k, base, |out|)
        invariant forall j :: 0 <= j < k && Touched(layout, index, j) ==> io(j).Good?
      {
        VisitAdvances(layout, k, base, |out|, len);
        VisitTouched(layout, index, k, |out|);
        match VisitFile(layout.files[k], base + |out|, len - |out|) {
          case Skip =>
          case Touch(start, chunk) =>
            if !io(k).Good? { return Err(IoFailure); }
            ReadVisit(layout, contents, k, base, out, start, chunk);
            out := out + contents[k][start..start + chunk];
        }
        k := k + 1;
      }
      LoopEnd(layout, k, base, |out|, len);
      RestUntouched(layout, index, k);
      return Ok(out);
    }
  }
}
