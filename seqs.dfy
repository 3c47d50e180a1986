/** Sequence helpers: concatenating a sequence of parts, fixed-width chunks, reversal. */
module Seqs {

  /** The parts laid end to end, in order. */
  function Flatten<T>(parts: seq<seq<T>>): seq<T>
  {
    if |parts| == 0 then [] else Flatten(parts[..|parts| - 1]) + parts[|parts| - 1]
  }

  /** The i-th run of w consecutive items of d. */
  function Chunk<T>(d: seq<T>, w: nat, i: nat): (c: seq<T>)
    requires (i + 1) * w <= |d|
    ensures |c| == w
  {
    assert (i + 1) * w == i * w + w;
    d[i * w..(i + 1) * w]
  }

  lemma MulLe(a: nat, b: nat, w: nat)
    requires a <= b
    ensures a * w <= b * w
  {}

  lemma MulNonneg(a: nat, b: nat)
    ensures 0 <= a * b
  {}

  lemma MulAssoc(a: nat, b: nat, c: nat)
    ensures (a * b) * c == a * (b * c)
  {}

  /** Index o * m + j of an n-by-m grid, scaled by w, lies inside the grid. */
  lemma GridBound(o: nat, n: nat, j: nat, m: nat, w: nat)
    requires o < n && j < m
    ensures o * m + j + 1 <= n * m
    ensures (o * m + j + 1) * w <= n * (m * w)
  {
    assert o * m + j + 1 <= o * m + m == (o + 1) * m;
    MulLe(o + 1, n, m);
    MulLe(o * m + j + 1, n * m, w);
    MulAssoc(n, m, w);
  }

  lemma Distrib(a: nat, b: nat, c: nat)
    ensures (a + b) * c == a * c + b * c
  {}

  /** Row r of an n-by-m grid of width-w items spans items r * m to r * m + m. */
  lemma RowSpan(r: nat, m: nat, w: nat)
    ensures (r * m) * w == r * (m * w)
    ensures (r * m + m) * w == (r + 1) * (m * w)
  {
    MulAssoc(r, m, w);
    Distrib(r * m, m, w);
    Distrib(r, 1, m * w);
  }

  /** What follows the start of chunk i is chunk i, then everything after it. */
  lemma ChunkThenRest<T>(d: seq<T>, w: nat, i: nat)
    requires (i + 1) * w <= |d|
    ensures 0 <= i * w <= |d|
    ensures d[i * w..] == Chunk(d, w, i) + d[(i + 1) * w..]
  {
    var lo, hi := i * w, (i + 1) * w;
    MulLe(i, i + 1, w);
    assert d[lo..] == d[lo..hi] + d[hi..];
  }

  /** Item o * m + j of width w starts j * w items into block o of width m * w. */
  lemma PieceOffsets(o: nat, m: nat, j: nat, w: nat)
    requires j < m
    ensures 0 <= j * w <= (j + 1) * w <= m * w && 0 <= o * (m * w)
    ensures (o * m + j) * w == o * (m * w) + j * w
    ensures (o * m + j + 1) * w == o * (m * w) + (j + 1) * w
    ensures (o + 1) * (m * w) == o * (m * w) + m * w
  {
    MulLe(j + 1, m, w);
    MulLe(j, j + 1, w);
    MulNonneg(o, m * w);
    Distrib(o * m, j, w);
    Distrib(o * m, j + 1, w);
    MulAssoc(o, m, w);
    Distrib(o, 1, m * w);
  }

  /** Chunk o * m + j of width w is piece j of chunk o of width m * w. */
  lemma ChunkInChunk<T>(d: seq<T>, w: nat, m: nat, o: nat, j: nat)
    requires j < m && (o + 1) * (m * w) <= |d|
    ensures (o * m + j + 1) * w <= |d|
    ensures (j + 1) * w <= m * w
    ensures Chunk(d, w, o * m + j) == Chunk(d, m * w, o)[j * w..(j + 1) * w]
  {
    PieceOffsets(o, m, j, w);
    var base, lo, hi := o * (m * w), j * w, (j + 1) * w;
    assert Chunk(d, m * w, o) == d[base..base + m * w];
    assert Chunk(d, w, o * m + j) == d[base + lo..base + hi];
    SliceOfSlice(d, base, base + m * w, lo, hi);
  }

  lemma SliceOfSlice<T>(d: seq<T>, a: nat, b: nat, x: nat, y: nat)
    requires a <= b <= |d| && x <= y <= b - a
    ensures d[a..b][x..y] == d[a + x..a + y]
  {
    var inner, direct := d[a..b][x..y], d[a + x..a + y];
    forall i | 0 <= i < y - x
      ensures inner[i] == direct[i]
    {
      assert inner[i] == d[a..b][x + i] == d[a + x + i];
    }
    SeqExt(inner, direct);
  }

  /** The n consecutive chunks of width w of d that start at chunk index base. */
  function Chunks<T>(d: seq<T>, w: nat, base: nat, n: nat): (r: seq<seq<T>>)
    requires (base + n) * w <= |d|
    ensures |r| == n
  {
    seq(n, j requires 0 <= j < n => MulLe(base + j + 1, base + n, w); Chunk(d, w, base + j))
  }

  predicate AllOfLength<T>(parts: seq<seq<T>>, w: nat)
  {
    forall i | 0 <= i < |parts| :: |parts[i]| == w
  }

  lemma {:induction false} FlattenAppend<T>(a: seq<seq<T>>, b: seq<seq<T>>)
    ensures Flatten(a + b) == Flatten(a) + Flatten(b)
    decreases |b|
  {
    if |b| == 0 {
      assert a + b == a;
    } else {
      var n := |b|;
      assert (a + b)[..|a + b| - 1] == a + b[..n - 1];
      assert (a + b)[|a + b| - 1] == b[n - 1];
      FlattenAppend(a, b[..n - 1]);
    }
  }

  /** The parts from p on flatten to part p followed by the parts after it. */
  lemma FlattenFrom<T>(parts: seq<seq<T>>, p: nat)
    requires p < |parts|
    ensures Flatten(parts[p..]) == parts[p] + Flatten(parts[p + 1..])
  {
    assert parts[p..] == [parts[p]] + parts[p + 1..];
    FlattenAppend([parts[p]], parts[p + 1..]);
    assert Flatten([parts[p]]) == Flatten([]) + parts[p];
  }

  lemma {:induction false} FlattenUniformLength<T>(parts: seq<seq<T>>, w: nat)
    requires AllOfLength(parts, w)
    ensures |Flatten(parts)| == |parts| * w
  {
    if |parts| > 0 {
      FlattenUniformLength(parts[..|parts| - 1], w);
    }
  }

  /** Cutting a concatenation of width-w parts back into chunks of width w gives the parts. */
  lemma {:induction false} ChunkOfFlatten<T>(parts: seq<seq<T>>, w: nat, i: nat)
    requires AllOfLength(parts, w)
    requires i < |parts|
    ensures |Flatten(parts)| == |parts| * w
    ensures (i + 1) * w <= |Flatten(parts)| && Chunk(Flatten(parts), w, i) == parts[i]
  {
    var n := |parts|;
    var init := parts[..n - 1];
    FlattenUniformLength(parts, w);
    FlattenUniformLength(init, w);
    MulLe(i + 1, n, w);
    if i < n - 1 {
      ChunkOfFlatten(init, w, i);
      MulLe(i + 1, n - 1, w);
      assert Flatten(parts) == Flatten(init) + parts[n - 1];
    } else {
      assert Flatten(parts) == Flatten(init) + parts[n - 1];
      assert |Flatten(init)| == i * w;
    }
  }

  /** Laying consecutive chunks end to end gives back the slice they were cut from. */
  lemma {:induction false} FlattenChunks<T>(d: seq<T>, w: nat, base: nat, n: nat)
    requires (base + n) * w <= |d|
    ensures base * w <= (base + n) * w
    ensures Flatten(Chunks(d, w, base, n)) == d[base * w..(base + n) * w]
  {
    MulLe(base, base + n, w);
    if n > 0 {
      var c := Chunks(d, w, base, n);
      MulLe(base + n - 1, base + n, w);
      assert c[..n - 1] == Chunks(d, w, base, n - 1);
      FlattenChunks(d, w, base, n - 1);
      MulLe(base, base + n - 1, w);
      assert c[n - 1] == Chunk(d, w, base + n - 1);
      assert Flatten(c) == d[base * w..(base + n - 1) * w] + d[(base + n - 1) * w..(base + n) * w];
    }
  }

  lemma SeqExt<T>(a: seq<T>, b: seq<T>)
    requires |a| == |b| && forall i | 0 <= i < |a| :: a[i] == b[i]
    ensures a == b
  {}

  /** Stated at a generic element type so that no element-wise equality is unfolded. */
  lemma HeadTail<T>(s: seq<T>, t: seq<T>)
    requires |s| > 0
    ensures s + t == [s[0]] + (s[1..] + t)
  {
    assert s == [s[0]] + s[1..];
  }

  function Reverse<T>(s: seq<T>): seq<T>
  {
    if |s| == 0 then [] else Reverse(s[1..]) + [s[0]]
  }

  lemma {:induction false} ReverseAppend<T>(a: seq<T>, b: seq<T>)
    ensures Reverse(a + b) == Reverse(b) + Reverse(a)
    decreases |a|
  {
    if |a| == 0 {
      assert a + b == b;
    } else {
      assert (a + b)[1..] == a[1..] + b;
      ReverseAppend(a[1..], b);
    }
  }

  lemma {:induction false} ReverseInvolution<T>(s: seq<T>)
    ensures Reverse(Reverse(s)) == s
  {
    if |s| > 0 {
      ReverseInvolution(s[1..]);
      ReverseAppend(Reverse(s[1..]), [s[0]]);
      assert Reverse([s[0]]) == [s[0]];
    }
  }
}
