/**
 * Splitting the mention list into messages: the list comprehension
 * `[xs[i:i+size] for i in range(0, len(xs), size)]` and `sep.join(xs)`.
 */
module Paging {

  function Min(a: int, b: int): int {
    if a <= b then a else b
  }

  /** The consecutive slices of `xs` of `size` elements each; the last may be shorter. */
  function Chunks<T>(xs: seq<T>, size: nat): (r: seq<seq<T>>)
    requires size > 0
    ensures (r == []) == (xs == [])
    ensures |r| <= |xs|
    ensures forall i :: 0 <= i < |r| ==> 0 < |r[i]| <= size
    decreases |xs|
  {
    if xs == [] then []
    else if |xs| <= size then [xs]
    else [xs[..size]] + Chunks(xs[size..], size)
  }

  // Euclidean division facts used to count chunks.

  lemma MulBounds(k: int, n: int)
    requires n > 0
    ensures k >= 1 ==> k * n >= n
    ensures k <= -1 ==> k * n <= -n
  {
    if k >= 1 {
      assert k * n == (k - 1) * n + n;
      assert (k - 1) * n >= 0;
    } else if k <= -1 {
      assert k * n == (k + 1) * n - n;
      assert (k + 1) * n <= 0;
    }
  }

  lemma DivUnique(a: int, n: int, q: int, r: int)
    requires n > 0 && 0 <= r < n && a == q * n + r
    ensures a / n == q
  {
    var q', r' := a / n, a % n;
    assert a == q' * n + r';
    assert (q' - q) * n == r - r';
    MulBounds(q' - q, n);
  }

  lemma DivStep(a: int, n: int)
    requires n > 0 && a >= n
    ensures a / n == (a - n) / n + 1
  {
    var q, r := (a - n) / n, (a - n) % n;
    assert a == (q + 1) * n + r;
    DivUnique(a, n, q + 1, r);
  }
  lemma DivOne(a: int, n: int)
    requires n > 0 && n <= a < 2 * n
    ensures a / n == 1
  {
    DivUnique(a, n, 1, a - n);
  }

  /** The chunks one after another. */
  function Flatten<T>(xss: seq<seq<T>>): seq<T> {
    if xss == [] then [] else xss[0] + Flatten(xss[1..])
  }

  /** `sep.join(xs)`: never shorter than the pieces together, and the piece itself for one piece. */
  function Join(sep: string, xs: seq<string>): (r: string)
    ensures |r| >= TotalLength(xs)
    ensures |xs| == 1 ==> r == xs[0]
  {
    if xs == [] then ""
    else if |xs| == 1 then xs[0]
    else xs[0] + sep + Join(sep, xs[1..])
  }

  /** The total length of the strings in `xs`. */
  function TotalLength(xs: seq<string>): nat {
    if xs == [] then 0 else |xs[0]| + TotalLength(xs[1..])
  }

  /** Concatenating the chunks in order gives the list back. */
  lemma {:induction false} FlattenChunks<T>(xs: seq<T>, size: nat)
    requires size > 0
    ensures Flatten(Chunks(xs, size)) == xs
    decreases |xs|
  {
    if xs != [] && |xs| > size {
      var rest := Chunks(xs[size..], size);
      assert ([xs[..size]] + rest)[1..] == rest;
      FlattenChunks(xs[size..], size);
    } else if xs != [] {
      assert [xs][1..] == [];
    }
  }

  /**
   * There are ceil(|xs| / size) chunks; each holds between one and `size`
   * elements, and every chunk but the last holds exactly `size`.
   */
  lemma {:induction false} ChunkSizes<T>(xs: seq<T>, size: nat)
    requires size > 0
    ensures var cs := Chunks(xs, size);
      && |cs| == (|xs| + size - 1) / size
      && (forall i :: 0 <= i < |cs| ==> 0 < |cs[i]| <= size)
      && (forall i :: 0 <= i < |cs| - 1 ==> |cs[i]| == size)
    decreases |xs|
  {
    var cs := Chunks(xs, size);
    if xs == [] {
    } else if |xs| <= size {
      DivOne(|xs| + size - 1, size);
    } else {
      var rest := Chunks(xs[size..], size);
      ChunkSizes(xs[size..], size);
      assert cs == [xs[..size]] + rest;
      DivStep(|xs| + size - 1, size);
      forall i | 0 < i < |cs|
        ensures cs[i] == rest[i - 1]
      {
      }
    }
  }

  /** Chunk `i` is the slice `xs[i*size : i*size + size]`, as the comprehension takes it. */
  lemma {:induction false} ChunkAt<T>(xs: seq<T>, size: nat, i: nat)
    requires size > 0
    requires i < |Chunks(xs, size)|
    ensures i * size < |xs|
    ensures Chunks(xs, size)[i] == xs[i * size..Min(i * size + size, |xs|)]
    decreases i
  {
    if i > 0 {
      var tail := xs[size..];
      assert |xs| > size;
      assert Chunks(xs, size) == [xs[..size]] + Chunks(tail, size);
      assert Chunks(xs, size)[i] == Chunks(tail, size)[i - 1];
      ChunkAt(tail, size, i - 1);
      var from := (i - 1) * size;
      assert from + size == i * size;
      var upTo := Min(from + size, |tail|);
      assert upTo + size == Min(i * size + size, |xs|);
      assert tail[from..upTo] == xs[from + size..upTo + size];
    }
  }

  /** Joining two non-empty lists is joining each and putting `sep` between. */
  lemma {:induction false} JoinAppend(sep: string, a: seq<string>, b: seq<string>)
    requires a != [] && b != []
    ensures Join(sep, a + b) == Join(sep, a) + sep + Join(sep, b)
    decreases |a|
  {
    if |a| > 1 {
      assert (a + b)[1..] == a[1..] + b;
      JoinAppend(sep, a[1..], b);
    }
  }

  /** The joined text is the pieces plus one `sep` between each neighbouring pair. */
  lemma {:induction false} JoinLength(sep: string, xs: seq<string>)
    requires xs != []
    ensures |Join(sep, xs)| == TotalLength(xs) + (|xs| - 1) * |sep|
    decreases |xs|
  {
    if |xs| > 1 {
      JoinLength(sep, xs[1..]);
      assert (|xs| - 1) * |sep| == (|xs| - 2) * |sep| + |sep|;
    } else {
      assert xs[1..] == [];
    }
  }
}
