/** `FlipTransformation` for Windows: mirrors a row-major bitmap either
    top-to-bottom (vertical) or left-to-right (horizontal).

    The reference meaning of a flip is stated on the bitmap's rows: a vertical
    flip reverses the order of the rows, a horizontal one reverses every row.
    `ToFlipped` fills a new pixel array with the source's two nested loops and
    is proved to produce exactly that. */
module Flip {
  import opened Common
  import opened Bitmaps

  datatype FlipType = Horizontal | Vertical

  /** A flip transformation; its only state is the flip mode. */
  datatype FlipTransformation = FlipTransformation(flipType: FlipType)

  /** The parameterless constructor. */
  function NewFlipTransformation(): (t: FlipTransformation)
    ensures t.flipType == Horizontal
  {
    FlipTransformation(Horizontal)
  }

  /** The enum member's name, as `string.Format` prints it. */
  function FlipTypeName(f: FlipType): string {
    match f
    case Horizontal => "Horizontal"
    case Vertical => "Vertical"
  }

  const KeyPrefix: string := "FlipTransformation,Type="

  /** The transformation's cache key: the prefix followed by the mode name. */
  function Key(t: FlipTransformation): (k: string)
    ensures |k| > |KeyPrefix| && k[..|KeyPrefix|] == KeyPrefix
    ensures k[|KeyPrefix|..] == FlipTypeName(t.flipType)
  {
    KeyPrefix + FlipTypeName(t.flipType)
  }

  /** Two flip transformations share a cache key exactly when they flip the
      same way, so the key never mixes up the two modes. */
  lemma KeyIdentifiesMode(s: FlipTransformation, t: FlipTransformation)
    ensures Key(s) == Key(t) <==> s.flipType == t.flipType
  {
    if Key(s) == Key(t) {
      assert Key(s)[|KeyPrefix|..] == Key(t)[|KeyPrefix|..];
      assert |FlipTypeName(s.flipType)| == |FlipTypeName(t.flipType)|;
    }
  }

  // ---------------------------------------------------------------------------
  // Rows of a row-major grid

  /** Every row has the given width. */
  ghost predicate Uniform<T>(rs: seq<seq<T>>, w: nat) {
    forall r :: 0 <= r < |rs| ==> |rs[r]| == w
  }

  /** The `h` rows of width `w` of a row-major grid. */
  function Rows<T>(p: seq<T>, w: nat, h: nat): (rs: seq<seq<T>>)
    requires |p| == w * h
    ensures |rs| == h && Uniform(rs, w)
    decreases h
  {
    if h == 0 then []
    else
      MulStep(w, h);
      [p[..w]] + Rows(p[w..], w, h - 1)
  }

  /** A grid of `h > 0` rows is its first row followed by `h - 1` rows. */
  lemma MulStep(w: nat, h: nat)
    requires h > 0
    ensures w * h == w * (h - 1) + w && 0 <= w * (h - 1)
  {
  }

  /** The rows laid end to end. */
  function Flatten<T>(rs: seq<seq<T>>): seq<T> {
    if rs == [] then [] else rs[0] + Flatten(rs[1..])
  }

  function Reverse<T>(s: seq<T>): (r: seq<T>)
    ensures |r| == |s|
    ensures forall i :: 0 <= i < |s| ==> r[i] == s[|s| - 1 - i]
  {
    seq(|s|, i requires 0 <= i < |s| => s[|s| - 1 - i])
  }

  /** Every row reversed, the rows kept in order. */
  function ReverseEach<T>(rs: seq<seq<T>>): (r: seq<seq<T>>)
    ensures |r| == |rs|
    ensures forall i :: 0 <= i < |rs| ==> r[i] == Reverse(rs[i])
  {
    seq(|rs|, i requires 0 <= i < |rs| => Reverse(rs[i]))
  }

  /** The reference flip: vertical reverses the row order, every other mode
      reverses each row. */
  function Flipped(p: seq<bv32>, w: nat, h: nat, mode: FlipType): seq<bv32>
    requires |p| == w * h
  {
    if mode == Vertical then Flatten(Reverse(Rows(p, w, h)))
    else Flatten(ReverseEach(Rows(p, w, h)))
  }

  // ---------------------------------------------------------------------------
  // Facts about rows

  lemma {:induction false} FlattenAppend<T>(a: seq<seq<T>>, b: seq<seq<T>>)
    ensures Flatten(a + b) == Flatten(a) + Flatten(b)
    decreases |a|
  {
    if a == [] {
      assert a + b == b;
    } else {
      assert (a + b)[1..] == a[1..] + b;
      FlattenAppend(a[1..], b);
    }
  }

  lemma {:induction false} FlattenLength<T>(rs: seq<seq<T>>, w: nat)
    requires Uniform(rs, w)
    ensures |Flatten(rs)| == |rs| * w
    decreases |rs|
  {
    if rs != [] {
      FlattenLength(rs[1..], w);
    }
  }

  /** Cell (x, r) of a uniform grid sits at index `r * w + x` of its flattening. */
  lemma {:induction false} FlattenIndex<T>(rs: seq<seq<T>>, w: nat, r: nat, x: nat)
    requires Uniform(rs, w) && r < |rs| && x < w
    ensures 0 <= r * w + x < |Flatten(rs)|
    ensures Flatten(rs)[r * w + x] == rs[r][x]
    decreases r
  {
    FlattenLength(rs, w);
    if r > 0 {
      FlattenIndex(rs[1..], w, r - 1, x);
      assert r * w + x == w + ((r - 1) * w + x);
    }
    assert r * w + x < |rs| * w by {
      MulMonotone(r + 1, |rs|, w);
    }
  }

  /** Splitting a grid into rows and laying them end to end gives it back. */
  lemma {:induction false} FlattenRows<T>(p: seq<T>, w: nat, h: nat)
    requires |p| == w * h
    ensures Flatten(Rows(p, w, h)) == p
    decreases h
  {
    if h > 0 {
      MulStep(w, h);
      FlattenRows(p[w..], w, h - 1);
      assert Rows(p, w, h)[1..] == Rows(p[w..], w, h - 1);
      assert p[..w] + p[w..] == p;
    }
  }

  /** Laying uniform rows end to end and splitting them again gives them back. */
  lemma {:induction false} RowsFlatten<T>(rs: seq<seq<T>>, w: nat)
    requires Uniform(rs, w)
    ensures |Flatten(rs)| == w * |rs|
    ensures Rows(Flatten(rs), w, |rs|) == rs
    decreases |rs|
  {
    FlattenLength(rs, w);
    if rs != [] {
      RowsFlatten(rs[1..], w);
      var f := Flatten(rs);
      assert f == rs[0] + Flatten(rs[1..]);
      assert f[..w] == rs[0];
      assert f[w..] == Flatten(rs[1..]);
    }
  }

  /** The first `k + 1` rows flatten to the first `k` rows followed by row `k`. */
  lemma FlattenPrefixStep<T>(rs: seq<seq<T>>, k: nat)
    requires k < |rs|
    ensures Flatten(rs[..k + 1]) == Flatten(rs[..k]) + rs[k]
  {
    assert rs[..k + 1] == rs[..k] + [rs[k]];
    FlattenAppend(rs[..k], [rs[k]]);
    assert Flatten([rs[k]]) == rs[k] + Flatten([]);
  }

  /** Row `k` of a grid, counted from the top, is row `h - 1 - k` counted from
      the bottom; the index of a cell in row `k` stays inside the grid. */
  lemma RowIndexBound(w: nat, h: nat, k: nat, x: nat)
    requires k < h && x <= w
    ensures k * w + x <= h * w
  {
    MulMonotone(k + 1, h, w);
  }

  // ---------------------------------------------------------------------------
  // The flip loops

  /** `ToFlipped(bmp, flipMode)`: a new bitmap of the same size whose array,
      filled slot by slot with the source's nested loops, is the reference
      flip of the input's pixels, as long as the input. The source's
      `result[i++] = ...` into a fresh array of the input's length is
      modelled as appending to a sequence, so that `i` is the length of the
      sequence built so far. */
  method ToFlipped(bmp: BitmapHolder, mode: FlipType) returns (result: BitmapHolder)
    requires WellFormed(bmp)
    ensures WellFormed(result)
    ensures result.width == bmp.width && result.height == bmp.height
    ensures |result.pixels.value| == |bmp.pixels.value|
    ensures result.pixels.value == Flipped(bmp.pixels.value, bmp.width, bmp.height, mode)
  {
    var q;
    if mode == Vertical {
      q := FillVertical(bmp.pixels.value, bmp.width, bmp.height);
    } else {
      q := FillHorizontal(bmp.pixels.value, bmp.width, bmp.height);
    }
    result := FromPixels(Some(q), bmp.width, bmp.height);
  }

  /** The vertical branch: rows from the bottom up, each row left to right. */
  method FillVertical(p: seq<bv32>, w: nat, h: nat) returns (q: seq<bv32>)
    requires |p| == w * h
    ensures |q| == |p|
    ensures q == Flipped(p, w, h, Vertical)
  {
    ghost var rows := Rows(p, w, h);
    ghost var target := Reverse(rows);
    q := [];
    var y := h - 1;
    while y >= 0
      invariant -1 <= y < h
      invariant q == Flatten(target[..h - 1 - y])
      decreases y + 1
    {
      RowSlice(p, w, h, y);
      q := CopyRow(q, p, y * w, w);
      FlattenPrefixStep(target, h - 1 - y);
      y := y - 1;
    }
    assert target[..h] == target;
    assert Uniform(target, w) by {
      forall k | 0 <= k < h ensures |target[k]| == w {
        assert target[k] == rows[h - 1 - k];
      }
    }
    FlattenLength(target, w);
  }

  /** The horizontal branch: rows from the top down, each row right to left. */
  method FillHorizontal(p: seq<bv32>, w: nat, h: nat) returns (q: seq<bv32>)
    requires |p| == w * h
    ensures |q| == |p|
    ensures q == Flipped(p, w, h, Horizontal)
  {
    ghost var rows := Rows(p, w, h);
    ghost var target := ReverseEach(rows);
    q := [];
    var y := 0;
    while y < h
      invariant 0 <= y <= h
      invariant q == Flatten(target[..y])
    {
      RowSlice(p, w, h, y);
      q := CopyRowReversed(q, p, y * w, w);
      FlattenPrefixStep(target, y);
      y := y + 1;
    }
    assert target[..h] == target;
    assert Uniform(target, w) by {
      forall k | 0 <= k < h ensures |target[k]| == w {
        assert target[k] == Reverse(rows[k]);
      }
    }
    FlattenLength(target, w);
  }

  /** The inner loop of the vertical branch: appends `p[start + x]` for `x`
      counting up from 0 to `w - 1`, that is, the row as it is. */
  method CopyRow(acc: seq<bv32>, p: seq<bv32>, start: nat, w: nat) returns (q: seq<bv32>)
    requires start + w <= |p|
    ensures q == acc + p[start..start + w]
  {
    q := acc;
    var x := 0;
    while x < w
      invariant 0 <= x <= w
      invariant q == acc + p[start..start + x]
    {
      assert p[start..start + x + 1] == p[start..start + x] + [p[start + x]];
      q := q + [p[start + x]];
      x := x + 1;
    }
  }

  /** The inner loop of the horizontal branch: appends `p[start + x]` for `x`
      counting down from `w - 1` to 0, that is, the row reversed. */
  method CopyRowReversed(acc: seq<bv32>, p: seq<bv32>, start: nat, w: nat) returns (q: seq<bv32>)
    requires start + w <= |p|
    ensures q == acc + Reverse(p[start..start + w])
  {
    ghost var row := Reverse(p[start..start + w]);
    q := acc;
    var x := w - 1;
    while x >= 0
      invariant -1 <= x < w
      invariant q == acc + row[..w - 1 - x]
      decreases x + 1
    {
      assert row[..w - x] == row[..w - 1 - x] + [p[start + x]];
      q := q + [p[start + x]];
      x := x - 1;
    }
    assert row[..w] == row;
  }

  /** Row `y` of a grid is the slice of `w` pixels starting at `y * w`. */
  lemma RowSlice(p: seq<bv32>, w: nat, h: nat, y: nat)
    requires |p| == w * h && y < h
    ensures 0 <= y * w && y * w + w <= |p|
    ensures p[y * w..y * w + w] == Rows(p, w, h)[y]
  {
    var rows := Rows(p, w, h);
    FlattenRows(p, w, h);
    RowIndexBound(w, h, y, w);
    forall x | 0 <= x < w ensures p[y * w..y * w + w][x] == rows[y][x] {
      FlattenIndex(rows, w, y, x);
    }
  }

  // ---------------------------------------------------------------------------
  // Properties of the reference flip

  /** Vertical flip, cell by cell: row `r` of the result is row `h - 1 - r` of the input. */
  lemma FlippedVerticalCell(p: seq<bv32>, w: nat, h: nat, r: nat, x: nat)
    requires |p| == w * h && r < h && x < w
    ensures 0 <= r * w + x < |Flipped(p, w, h, Vertical)|
    ensures 0 <= (h - 1 - r) * w + x < |p|
    ensures Flipped(p, w, h, Vertical)[r * w + x] == p[(h - 1 - r) * w + x]
  {
    var rows := Rows(p, w, h);
    var rev := Reverse(rows);
    FlattenRows(p, w, h);
    assert Uniform(rev, w) by {
      forall k | 0 <= k < |rev| ensures |rev[k]| == w {
        assert rev[k] == rows[h - 1 - k];
      }
    }
    var s: nat := h - 1 - r;
    FlattenIndex(rev, w, r, x);
    FlattenIndex(rows, w, s, x);
    assert rev[r] == rows[s];
    assert Flatten(rev)[r * w + x] == Flatten(rows)[s * w + x];
  }

  /** Horizontal flip, cell by cell: column `k` of each row of the result is
      column `w - 1 - k` of the same row of the input. */
  lemma FlippedHorizontalCell(p: seq<bv32>, w: nat, h: nat, y: nat, k: nat)
    requires |p| == w * h && y < h && k < w
    ensures 0 <= y * w + k < |Flipped(p, w, h, Horizontal)|
    ensures 0 <= y * w + (w - 1 - k) < |p|
    ensures Flipped(p, w, h, Horizontal)[y * w + k] == p[y * w + (w - 1 - k)]
  {
    var rows := Rows(p, w, h);
    var each := ReverseEach(rows);
    FlattenRows(p, w, h);
    assert Uniform(each, w) by {
      forall j | 0 <= j < |each| ensures |each[j]| == w {
        assert each[j] == Reverse(rows[j]);
      }
    }
    FlattenIndex(each, w, y, k);
    FlattenIndex(rows, w, y, w - 1 - k);
    assert each[y][k] == rows[y][w - 1 - k];
  }

  lemma ReverseReverse<T>(s: seq<T>)
    ensures Reverse(Reverse(s)) == s
  {
  }

  lemma ReverseEachTwice<T>(rs: seq<seq<T>>)
    ensures ReverseEach(ReverseEach(rs)) == rs
  {
    forall i | 0 <= i < |rs| ensures ReverseEach(ReverseEach(rs))[i] == rs[i] {
      ReverseReverse(rs[i]);
    }
  }

  lemma {:induction false} ReverseMultiset<T>(s: seq<T>)
    ensures multiset(Reverse(s)) == multiset(s)
    decreases |s|
  {
    if s != [] {
      var n := |s|;
      ReverseMultiset(s[1..]);
      assert Reverse(s) == Reverse(s[1..]) + [s[0]];
      assert s == [s[0]] + s[1..];
    }
  }

  lemma {:induction false} FlattenReverseMultiset<T>(rs: seq<seq<T>>)
    ensures multiset(Flatten(Reverse(rs))) == multiset(Flatten(rs))
    decreases |rs|
  {
    if rs != [] {
      FlattenReverseMultiset(rs[1..]);
      assert Reverse(rs) == Reverse(rs[1..]) + [rs[0]];
      FlattenAppend(Reverse(rs[1..]), [rs[0]]);
      assert Flatten([rs[0]]) == rs[0] + Flatten([]);
    }
  }

  lemma {:induction false} FlattenReverseEachMultiset<T>(rs: seq<seq<T>>)
    ensures multiset(Flatten(ReverseEach(rs))) == multiset(Flatten(rs))
    decreases |rs|
  {
    if rs != [] {
      FlattenReverseEachMultiset(rs[1..]);
      assert ReverseEach(rs)[1..] == ReverseEach(rs[1..]);
      ReverseMultiset(rs[0]);
    }
  }

  /** A flip only moves pixels: the result holds the same pixels, each as
      many times as the input does. */
  lemma FlippedIsPermutation(p: seq<bv32>, w: nat, h: nat, mode: FlipType)
    requires |p| == w * h
    ensures multiset(Flipped(p, w, h, mode)) == multiset(p)
  {
    FlattenRows(p, w, h);
    if mode == Vertical {
      FlattenReverseMultiset(Rows(p, w, h));
    } else {
      FlattenReverseEachMultiset(Rows(p, w, h));
    }
  }

  /** Flipping twice the same way gives back the original pixels. */
  lemma FlippedTwiceIsIdentity(p: seq<bv32>, w: nat, h: nat, mode: FlipType)
    requires |p| == w * h
    ensures |Flipped(p, w, h, mode)| == w * h
    ensures Flipped(Flipped(p, w, h, mode), w, h, mode) == p
  {
    var rows := Rows(p, w, h);
    FlattenRows(p, w, h);
    var once := if mode == Vertical then Reverse(rows) else ReverseEach(rows);
    assert Uniform(once, w);
    RowsFlatten(once, w);
    if mode == Vertical {
      ReverseReverse(rows);
    } else {
      ReverseEachTwice(rows);
    }
  }
}
