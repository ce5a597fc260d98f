/** Adam7 geometry and the row automaton of the PNG validator: app/avatar_images.py, _png_image_data_is_valid. */
module PngRows {

  import opened Bytes

  // -------- passes --------

  datatype Pass = Pass(startX: nat, startY: nat, stepX: nat, stepY: nat)

  const WHOLE := [Pass(0, 0, 1, 1)]
  const ADAM7 := [Pass(0, 0, 8, 8), Pass(4, 0, 8, 8), Pass(0, 4, 4, 8), Pass(2, 0, 4, 4),
                  Pass(0, 2, 2, 4), Pass(1, 0, 2, 2), Pass(0, 1, 1, 2)]

  predicate Steps(passes: seq<Pass>) {
    forall p :: 0 <= p < |passes| ==> passes[p].stepX >= 1 && passes[p].stepY >= 1
  }

  function Passes(interlaced: bool): (r: seq<Pass>)
    ensures Steps(r)
  {
    if interlaced then ADAM7 else WHOLE
  }

  /** How many of start, start + step, ... lie below the extent. */
  function Along(extent: nat, start: nat, step: nat): nat
    requires step >= 1
  {
    if extent > start then (extent - start + step - 1) / step else 0
  }

  function PassWidth(p: Pass, width: nat): nat
    requires p.stepX >= 1
  {
    Along(width, p.startX, p.stepX)
  }

  function PassHeight(p: Pass, height: nat): nat
    requires p.stepY >= 1
  {
    Along(height, p.startY, p.stepY)
  }

  /** Pixel i, j of the pass is pixel x, y of the image. */
  predicate Places(p: Pass, i: nat, j: nat, x: nat, y: nat) {
    x == p.startX + i * p.stepX && y == p.startY + j * p.stepY
  }

  predicate InPass(p: Pass, width: nat, height: nat, i: nat, j: nat)
    requires p.stepX >= 1 && p.stepY >= 1
  {
    i < PassWidth(p, width) && j < PassHeight(p, height)
  }

  lemma AlongMeans(extent: nat, start: nat, step: nat, i: nat)
    requires step >= 1
    ensures i < Along(extent, start, step) <==> start + i * step < extent
  {
    if extent > start {
      var d := extent - start;
      var n := (d + step - 1) / step;
      assert n * step <= d + step - 1 < (n + 1) * step by { DivMeans(d + step - 1, step); }
      if i < n {
        assert (i + 1) * step <= n * step by { MulOrder(i + 1, n, step); }
      } else {
        assert n * step <= i * step by { MulOrder(n, i, step); }
      }
    } else {
      assert i * step >= 0 by { MulOrder(0, i, step); }
    }
  }

  lemma DivMeans(a: nat, b: nat)
    requires b >= 1
    ensures (a / b) * b <= a < (a / b + 1) * b
  {
  }

  lemma MulOrder(a: nat, b: nat, c: nat)
    requires a <= b
    ensures a * c <= b * c
  {
  }

  // -------- every pixel in one pass --------

  /** The pass of a pixel, by its place in the 8 by 8 tile. */
  function PassOf(x: nat, y: nat): (p: nat)
    ensures p < 7
  {
    if y % 2 == 1 then 6
    else if x % 2 == 1 then 5
    else if y % 4 == 2 then 4
    else if x % 4 == 2 then 3
    else if y % 8 == 4 then 2
    else if x % 8 == 4 then 1
    else 0
  }

  predicate OnGrid(p: Pass, x: nat, y: nat)
    requires p.stepX >= 1 && p.stepY >= 1
  {
    x >= p.startX && (x - p.startX) % p.stepX == 0 && y >= p.startY && (y - p.startY) % p.stepY == 0
  }

  lemma Remainder(x: nat, q: nat, r: nat, step: nat)
    requires x == q * step + r && r < step
    ensures x % step == r && x / step == q
  {
    DivMeans(x, step);
    if x / step < q {
      MulOrder(x / step + 1, q, step);
    }
    if x / step > q {
      MulOrder(q + 1, x / step, step);
    }
  }

  lemma OffsetIsResidue(x: nat, start: nat, step: nat)
    requires start < step
    ensures x >= start && (x - start) % step == 0 <==> x % step == start
  {
    if x >= start {
      var q, r := (x - start) / step, (x - start) % step;
      assert x - start == q * step + r by { Division(x - start, step); }
      if r == 0 {
        Remainder(x, q, start, step);
      }
    }
    Division(x, step);
    if x % step == start {
      assert x - start == (x / step) * step + 0;
      Remainder(x - start, x / step, 0, step);
    }
  }

  lemma Division(a: nat, b: nat)
    requires b >= 1
    ensures a == (a / b) * b + a % b && a % b < b
  {
  }

  lemma Residues(x: nat)
    ensures x % 4 == x % 8 || x % 4 == x % 8 - 4
    ensures x % 2 == x % 4 || x % 2 == x % 4 - 2
  {
    Division(x, 8);
    Division(x, 4);
    if x % 8 < 4 {
      Remainder(x, 2 * (x / 8), x % 8, 4);
    } else {
      Remainder(x, 2 * (x / 8) + 1, x % 8 - 4, 4);
    }
    if x % 4 < 2 {
      Remainder(x, 2 * (x / 4), x % 4, 2);
    } else {
      Remainder(x, 2 * (x / 4) + 1, x % 4 - 2, 2);
    }
  }

  lemma GridIsPass(x: nat, y: nat, p: nat)
    requires p < 7
    ensures OnGrid(ADAM7[p], x, y) <==> p == PassOf(x, y)
  {
    var q := ADAM7[p];
    OffsetIsResidue(x, q.startX, q.stepX);
    OffsetIsResidue(y, q.startY, q.stepY);
    hide OnGrid;
    assert OnGrid(q, x, y) <==> x % q.stepX == q.startX && y % q.stepY == q.startY by {
      GridMeans(q, x, y);
    }
    Residues(x);
    Residues(y);
    ResiduePass(x % 8, x % 4, x % 2, y % 8, y % 4, y % 2, p);
  }

  lemma GridMeans(p: Pass, x: nat, y: nat)
    requires p.stepX >= 1 && p.stepY >= 1
    ensures OnGrid(p, x, y) <==>
            (x >= p.startX && (x - p.startX) % p.stepX == 0) && (y >= p.startY && (y - p.startY) % p.stepY == 0)
  {
  }

  /** The pass by residues alone. */
  lemma ResiduePass(x8: nat, x4: nat, x2: nat, y8: nat, y4: nat, y2: nat, p: nat)
    requires p < 7 && x8 < 8 && y8 < 8 && x4 < 4 && y4 < 4 && x2 < 2 && y2 < 2
    requires (x4 == x8 || x4 == x8 - 4) && (x2 == x4 || x2 == x4 - 2)
    requires (y4 == y8 || y4 == y8 - 4) && (y2 == y4 || y2 == y4 - 2)
    ensures var q := if y2 == 1 then 6 else if x2 == 1 then 5 else if y4 == 2 then 4
                     else if x4 == 2 then 3 else if y8 == 4 then 2 else if x8 == 4 then 1 else 0;
            p == q <==> match p
                        case 0 => x8 == 0 && y8 == 0
                        case 1 => x8 == 4 && y8 == 0
                        case 2 => x4 == 0 && y8 == 4
                        case 3 => x4 == 2 && y4 == 0
                        case 4 => x2 == 0 && y4 == 2
                        case 5 => x2 == 1 && y2 == 0
                        case _ => y2 == 1
  {
  }

  lemma OnGridPlaces(p: Pass, x: nat, y: nat)
    requires p.stepX >= 1 && p.stepY >= 1
    ensures OnGrid(p, x, y) ==> Places(p, (x - p.startX) / p.stepX, (y - p.startY) / p.stepY, x, y)
    ensures forall i: nat, j: nat :: Places(p, i, j, x, y) ==> OnGrid(p, x, y)
  {
    forall i: nat, j: nat | Places(p, i, j, x, y)
      ensures OnGrid(p, x, y)
    {
      MulMod(i, p.stepX);
      MulMod(j, p.stepY);
    }
  }

  lemma MulMod(i: nat, step: nat)
    requires step >= 1
    ensures (i * step) % step == 0 && i * step >= 0
  {
    assert i * step == step * i + 0;
    ModOfMultiple(i, step);
  }

  lemma {:induction false} ModOfMultiple(i: nat, step: nat)
    requires step >= 1
    ensures (i * step) % step == 0
  {
    if i > 0 {
      ModOfMultiple(i - 1, step);
      assert i * step == (i - 1) * step + step;
      AddStep((i - 1) * step, step);
    }
  }

  lemma AddStep(a: nat, step: nat)
    requires step >= 1
    ensures (a + step) % step == a % step
  {
    assert a + step == (a / step + 1) * step + a % step;
    var q, r := a / step + 1, a % step;
    assert (a + step) / step == q by {
      if (a + step) / step < q {
        MulOrder((a + step) / step + 1, q, step);
      }
      if (a + step) / step > q {
        MulOrder(q + 1, (a + step) / step, step);
      }
    }
  }

  /** A pixel of the image has one place in one pass; every place of every pass is a pixel of the image. */
  lemma EveryPixelInOnePass(width: nat, height: nat, x: nat, y: nat)
    requires x < width && y < height
    ensures var p := PassOf(x, y); var q := ADAM7[p];
            var i, j := (x - q.startX) / q.stepX, (y - q.startY) / q.stepY;
            && x >= q.startX && y >= q.startY && InPass(q, width, height, i, j) && Places(q, i, j, x, y)
            && forall p', i', j' :: 0 <= p' < 7 && InPass(ADAM7[p'], width, height, i', j') && Places(ADAM7[p'], i', j', x, y)
                 ==> p' == p && i' == i && j' == j
  {
    var p := PassOf(x, y);
    var q := ADAM7[p];
    GridIsPass(x, y, p);
    OnGridPlaces(q, x, y);
    var i, j := (x - q.startX) / q.stepX, (y - q.startY) / q.stepY;
    AlongMeans(width, q.startX, q.stepX, i);
    AlongMeans(height, q.startY, q.stepY, j);
    forall p', i', j' | 0 <= p' < 7 && InPass(ADAM7[p'], width, height, i', j') && Places(ADAM7[p'], i', j', x, y)
      ensures p' == p && i' == i && j' == j
    {
      GridIsPass(x, y, p');
      OnGridPlaces(ADAM7[p'], x, y);
      SameMultiple(i, i', q.stepX);
      SameMultiple(j, j', q.stepY);
    }
  }

  lemma SameMultiple(a: nat, b: nat, step: nat)
    requires step >= 1 && a * step == b * step
    ensures a == b
  {
  }

  lemma EveryPlaceIsAPixel(width: nat, height: nat, p: nat, i: nat, j: nat)
    requires p < 7 && InPass(ADAM7[p], width, height, i, j)
    ensures ADAM7[p].startX + i * ADAM7[p].stepX < width && ADAM7[p].startY + j * ADAM7[p].stepY < height
  {
    AlongMeans(width, ADAM7[p].startX, ADAM7[p].stepX, i);
    AlongMeans(height, ADAM7[p].startY, ADAM7[p].stepY, j);
  }

  function Area(passes: seq<Pass>, width: nat, height: nat): nat
    requires Steps(passes)
  {
    if passes == [] then 0
    else PassWidth(passes[0], width) * PassHeight(passes[0], height) + Area(passes[1..], width, height)
  }

  lemma Halves(extent: nat)
    ensures Along(extent, 0, 8) + Along(extent, 4, 8) == Along(extent, 0, 4)
    ensures Along(extent, 0, 4) + Along(extent, 2, 4) == Along(extent, 0, 2)
    ensures Along(extent, 0, 2) + Along(extent, 1, 2) == Along(extent, 0, 1) == extent
  {
    HalfOfFour(extent);
    HalfOfTwo(extent);
    HalfOfOne(extent);
  }

  lemma HalfOfFour(extent: nat)
    ensures Along(extent, 0, 8) + Along(extent, 4, 8) == Along(extent, 0, 4)
  {
    var q, r := extent / 8, extent % 8;
    assert Along(extent, 0, 8) == q + (if r > 0 then 1 else 0);
    assert Along(extent, 4, 8) == q + (if r > 4 then 1 else 0);
    assert Along(extent, 0, 4) == 2 * q + (if r > 4 then 2 else if r > 0 then 1 else 0);
  }

  lemma HalfOfTwo(extent: nat)
    ensures Along(extent, 0, 4) + Along(extent, 2, 4) == Along(extent, 0, 2)
  {
    var q, r := extent / 4, extent % 4;
    assert Along(extent, 0, 4) == q + (if r > 0 then 1 else 0);
    assert Along(extent, 2, 4) == q + (if r > 2 then 1 else 0);
    assert Along(extent, 0, 2) == 2 * q + (if r > 2 then 2 else if r > 0 then 1 else 0);
  }

  lemma HalfOfOne(extent: nat)
    ensures Along(extent, 0, 2) + Along(extent, 1, 2) == Along(extent, 0, 1) == extent
  {
    var q, r := extent / 2, extent % 2;
    assert Along(extent, 0, 2) == q + (if r > 0 then 1 else 0);
    assert Along(extent, 1, 2) == q;
    assert Along(extent, 0, 1) == extent;
  }

  lemma AreaFrom(passes: seq<Pass>, i: nat, width: nat, height: nat)
    requires Steps(passes) && i < |passes|
    ensures Steps(passes[i..]) && Steps(passes[i + 1..])
    ensures Area(passes[i..], width, height)
         == PassWidth(passes[i], width) * PassHeight(passes[i], height) + Area(passes[i + 1..], width, height)
  {
    assert passes[i..][1..] == passes[i + 1..];
  }

  lemma SplitProducts(a: nat, b: nat, c: nat, d: nat)
    ensures a * c + b * c == (a + b) * c && a * c + a * d == a * (c + d)
  {
  }

  /** The areas of the seven passes add up to the image. */
  lemma AreasAddUp(passes: seq<Pass>, width: nat, height: nat)
    requires passes == ADAM7 && Steps(passes)
    ensures Area(passes, width, height) == width * height
  {
    hide Area, Along;
    assert passes[0..] == passes;
    AreaFrom(passes, 0, width, height);
    AreaFrom(passes, 1, width, height);
    AreaFrom(passes, 2, width, height);
    AreaFrom(passes, 3, width, height);
    AreaFrom(passes, 4, width, height);
    AreaFrom(passes, 5, width, height);
    AreaFrom(passes, 6, width, height);
    NoArea(passes[7..], width, height);
    Halves(width);
    Halves(height);
    SplitProducts(Along(width, 0, 8), Along(width, 4, 8), Along(height, 0, 8), 0);
    SplitProducts(Along(width, 0, 4), 0, Along(height, 0, 8), Along(height, 4, 8));
    SplitProducts(Along(width, 0, 4), Along(width, 2, 4), Along(height, 0, 4), 0);
    SplitProducts(Along(width, 0, 2), 0, Along(height, 0, 4), Along(height, 2, 4));
    SplitProducts(Along(width, 0, 2), Along(width, 1, 2), Along(height, 0, 2), 0);
    SplitProducts(width, 0, Along(height, 0, 2), Along(height, 1, 2));
  }

  lemma NoArea(passes: seq<Pass>, width: nat, height: nat)
    requires passes == []
    ensures Steps(passes) && Area(passes, width, height) == 0
  {
  }

  // -------- rows --------

  function RowBytes(p: Pass, width: nat, bits: nat): nat
    requires p.stepX >= 1
  {
    (PassWidth(p, width) * bits + 7) / 8
  }

  function Repeat(n: nat, count: nat): (r: seq<nat>)
    ensures |r| == count && forall i :: 0 <= i < count ==> r[i] == n
  {
    seq(count, i => n)
  }

  /** What row_bytes_iter gives: the row lengths of all passes, in order. */
  function Rows(passes: seq<Pass>, width: nat, height: nat, bits: nat): seq<nat>
    requires Steps(passes)
  {
    if passes == [] then []
    else Repeat(RowBytes(passes[0], width, bits), PassHeight(passes[0], height)) + Rows(passes[1..], width, height, bits)
  }

  function RowCount(passes: seq<Pass>, height: nat): nat
    requires Steps(passes)
  {
    if passes == [] then 0 else PassHeight(passes[0], height) + RowCount(passes[1..], height)
  }

  function PassSize(p: Pass, width: nat, height: nat, bits: nat): nat
    requires p.stepX >= 1 && p.stepY >= 1
  {
    PassHeight(p, height) * (1 + RowBytes(p, width, bits))
  }

  function ExpectedSize(passes: seq<Pass>, width: nat, height: nat, bits: nat): nat
    requires Steps(passes)
  {
    if passes == [] then 0
    else PassSize(passes[0], width, height, bits) + ExpectedSize(passes[1..], width, height, bits)
  }

  /** One filter byte for every row. */
  function Size(rows: seq<nat>): nat {
    if rows == [] then 0 else 1 + rows[0] + Size(rows[1..])
  }

  lemma {:induction false} SizeConcat(a: seq<nat>, b: seq<nat>)
    ensures Size(a + b) == Size(a) + Size(b)
  {
    if a == [] {
      assert a + b == b;
    } else {
      assert (a + b)[1..] == a[1..] + b;
      SizeConcat(a[1..], b);
    }
  }

  lemma {:induction false} SizeRepeat(n: nat, count: nat)
    ensures Size(Repeat(n, count)) == count * (1 + n)
  {
    if count > 0 {
      assert Repeat(n, count)[1..] == Repeat(n, count - 1);
      SizeRepeat(n, count - 1);
      assert count * (1 + n) == (count - 1) * (1 + n) + (1 + n);
    }
  }

  /** The expected size is that of exactly the rows that are iterated, and their number is the initial count. */
  lemma {:induction false} ExpectedSizeIsThatOfTheRows(passes: seq<Pass>, width: nat, height: nat, bits: nat)
    requires Steps(passes)
    ensures ExpectedSize(passes, width, height, bits) == Size(Rows(passes, width, height, bits))
    ensures RowCount(passes, height) == |Rows(passes, width, height, bits)|
  {
    if passes != [] {
      assert Steps(passes[1..]);
      ExpectedSizeIsThatOfTheRows(passes[1..], width, height, bits);
      SizeConcat(Repeat(RowBytes(passes[0], width, bits), PassHeight(passes[0], height)), Rows(passes[1..], width, height, bits));
      SizeRepeat(RowBytes(passes[0], width, bits), PassHeight(passes[0], height));
    }
  }

  // -------- the stream of rows --------

  /** The stream splits into all the rows, each led by a filter byte of at most 4. */
  predicate IsRows(rows: seq<nat>, stream: seq<Byte>) {
    if rows == [] then stream == []
    else |stream| >= 1 + rows[0] && stream[0] <= 4 && IsRows(rows[1..], stream[1 + rows[0]..])
  }

  /** In the middle of a row with so many bytes to go, and so many rows begun. */
  datatype Reader = Reader(remaining: nat, begun: nat) | Rejected

  function Read(rows: seq<nat>, r: Reader, b: Byte): (next: Reader)
    requires r.Reader? ==> r.begun <= |rows|
    ensures next.Reader? ==> next.begun <= |rows|
  {
    if r.Rejected? then r
    else if r.remaining > 0 then r.(remaining := r.remaining - 1)
    else if b > 4 || r.begun == |rows| then Rejected
    else Reader(rows[r.begun], r.begun + 1)
  }

  function ReadAll(rows: seq<nat>, r: Reader, stream: seq<Byte>): (next: Reader)
    requires r.Reader? ==> r.begun <= |rows|
    ensures next.Reader? ==> next.begun <= |rows|
    decreases |stream|
  {
    if stream == [] then r else ReadAll(rows, Read(rows, r, stream[0]), stream[1..])
  }

  lemma {:induction false} ReadConcat(rows: seq<nat>, r: Reader, a: seq<Byte>, b: seq<Byte>)
    requires r.Reader? ==> r.begun <= |rows|
    ensures ReadAll(rows, r, a + b) == ReadAll(rows, ReadAll(rows, r, a), b)
    decreases |a|
  {
    if a == [] {
      assert a + b == b;
    } else {
      assert (a + b)[1..] == a[1..] + b;
      ReadConcat(rows, Read(rows, r, a[0]), a[1..], b);
    }
  }

  lemma {:induction false} RejectedForGood(rows: seq<nat>, stream: seq<Byte>)
    ensures ReadAll(rows, Rejected, stream) == Rejected
  {
    if stream != [] {
      RejectedForGood(rows, stream[1..]);
    }
  }

  /** Skipping inside a row in one go. */
  lemma {:induction false} ReadSkips(rows: seq<nat>, r: Reader, stream: seq<Byte>)
    requires r.Reader? && r.begun <= |rows| && |stream| <= r.remaining
    ensures ReadAll(rows, r, stream) == r.(remaining := r.remaining - |stream|)
    decreases |stream|
  {
    if stream != [] {
      ReadSkips(rows, Read(rows, r, stream[0]), stream[1..]);
    }
  }

  /** The automaton ends in the middle of nothing exactly on the streams that split into the rows to come. */
  lemma {:induction false} ReadsExactlyRows(rows: seq<nat>, begun: nat, stream: seq<Byte>)
    requires begun <= |rows|
    ensures ReadAll(rows, Reader(0, begun), stream) == Reader(0, |rows|) <==> IsRows(rows[begun..], stream)
    decreases |stream|
  {
    if stream == [] {
      assert begun < |rows| ==> rows[begun..] != [];
    } else if stream[0] > 4 || begun == |rows| {
      RejectedForGood(rows, stream[1..]);
    } else {
      var n := rows[begun];
      assert rows[begun..][1..] == rows[begun + 1..];
      if |stream| - 1 < n {
        ReadSkips(rows, Reader(n, begun + 1), stream[1..]);
      } else {
        var row, rest := stream[1..][..n], stream[1..][n..];
        assert stream[1..] == row + rest && rest == stream[1 + n..];
        ReadConcat(rows, Reader(n, begun + 1), row, rest);
        ReadSkips(rows, Reader(n, begun + 1), row);
        ReadsExactlyRows(rows, begun + 1, rest);
      }
    }
  }

  // -------- the validator --------

  /** The counters that consume shares with the function around it, and the iterator of row lengths. */
  class RowReader {
    const rows: seq<nat>
    const expectedSize: nat
    var rawOffset: nat
    var rowRemaining: nat
    var rowsRemaining: nat

    /** What is left to be read is accounted for by the rest of the row and the rows to come. */
    ghost predicate Valid()
      reads this
    {
      && expectedSize == Size(rows) && rowsRemaining <= |rows|
      && rawOffset <= expectedSize
      && expectedSize - rawOffset == rowRemaining + Size(rows[|rows| - rowsRemaining..])
    }

    ghost function View(): Reader
      requires rowsRemaining <= |rows|
      reads this
    {
      Reader(rowRemaining, |rows| - rowsRemaining)
    }

    constructor (lengths: seq<nat>, size: nat, count: nat)
      requires size == Size(lengths) && count == |lengths|
      ensures Valid() && rows == lengths && View() == Reader(0, 0)
    {
      rows, expectedSize := lengths, size;
      rawOffset, rowRemaining, rowsRemaining := 0, 0, count;
      new;
      assert rows[0..] == rows;
    }

    /** consume: one piece of inflated data. next on the iterator is only called while rows are left. */
    method Consume(raw: seq<Byte>) returns (ok: bool)
      requires Valid()
      modifies this
      ensures ok <==> ReadAll(rows, old(View()), raw) != Rejected
      ensures ok ==> Valid() && View() == ReadAll(rows, old(View()), raw)
    {
      hide ReadAll, Size;
      var offset := 0;
      assert raw[0..] == raw;
      while offset < |raw|
        invariant offset <= |raw| && Valid()
        invariant ReadAll(rows, View(), raw[offset..]) == ReadAll(rows, old(View()), raw)
      {
        if rawOffset >= expectedSize {
          NothingExpected(rows, rowRemaining, rowsRemaining, raw[offset..]);
          return false;
        }
        if rowRemaining == 0 {
          ReadFirst(rows, View(), raw, offset);
          if raw[offset] > 4 || rowsRemaining == 0 {
            RejectedForGood(rows, raw[offset + 1..]);
            return false;
          }
          FirstRow(rows, |rows| - rowsRemaining);
          rowRemaining := rows[|rows| - rowsRemaining];
          rowsRemaining := rowsRemaining - 1;
          offset := offset + 1;
          rawOffset := rawOffset + 1;
          continue;
        }
        var skipped := if rowRemaining <= |raw| - offset then rowRemaining else |raw| - offset;
        ReadSkipped(rows, View(), raw, offset, skipped);
        rowRemaining := rowRemaining - skipped;
        offset := offset + skipped;
        rawOffset := rawOffset + skipped;
      }
      ReadNothing(rows, View(), raw[offset..]);
      return true;
    }
  }

  lemma ReadNothing(rows: seq<nat>, r: Reader, stream: seq<Byte>)
    requires stream == [] && r.Reader? && r.begun <= |rows|
    ensures ReadAll(rows, r, stream) == r
  {
  }

  lemma ReadFirst(rows: seq<nat>, r: Reader, raw: seq<Byte>, offset: nat)
    requires offset < |raw| && r.Reader? && r.begun <= |rows|
    ensures ReadAll(rows, r, raw[offset..]) == ReadAll(rows, Read(rows, r, raw[offset]), raw[offset + 1..])
  {
    assert raw[offset..][1..] == raw[offset + 1..];
  }

  lemma ReadSkipped(rows: seq<nat>, r: Reader, raw: seq<Byte>, offset: nat, skipped: nat)
    requires offset + skipped <= |raw| && r.Reader? && r.begun <= |rows| && skipped <= r.remaining
    ensures ReadAll(rows, r, raw[offset..]) == ReadAll(rows, r.(remaining := r.remaining - skipped), raw[offset + skipped..])
  {
    var rest := raw[offset..];
    assert rest == rest[..skipped] + raw[offset + skipped..];
    ReadConcat(rows, r, rest[..skipped], raw[offset + skipped..]);
    ReadSkips(rows, r, rest[..skipped]);
  }

  lemma FirstRow(rows: seq<nat>, i: nat)
    requires i < |rows|
    ensures Size(rows[i..]) == 1 + rows[i] + Size(rows[i + 1..])
  {
    assert rows[i..][1..] == rows[i + 1..];
  }

  lemma NothingExpected(rows: seq<nat>, remaining: nat, count: nat, stream: seq<Byte>)
    requires count <= |rows| && remaining + Size(rows[|rows| - count..]) == 0 && stream != []
    ensures ReadAll(rows, Reader(remaining, |rows| - count), stream) == Rejected
  {
    RejectedForGood(rows, stream[1..]);
  }

  /** The pieces the decompressor gave; complete says that it reached the end of the stream without an error
      and without data after it. */
  datatype Inflated = Inflated(pieces: seq<seq<Byte>>, complete: bool)

  /** _png_image_data_is_valid over what the decompressor makes of the data: whatever the pieces,
      it accepts exactly the complete streams that split into the rows of the image. */
  method ImageDataIsValid(data: Inflated, width: nat, height: nat, bits: nat, interlaced: bool) returns (ok: bool)
    ensures ok <==> data.complete && IsRows(Rows(Passes(interlaced), width, height, bits), Flatten(data.pieces))
  {
    hide ReadAll, IsRows, Passes, Rows, ExpectedSize, RowCount, Flatten;
    var passes := Passes(interlaced);
    ExpectedSizeIsThatOfTheRows(passes, width, height, bits);
    var expectedSize, rowsRemaining := Totals(passes, width, height, bits);
    var rows := Rows(passes, width, height, bits);
    var reader := new RowReader(rows, expectedSize, rowsRemaining);
    var i := 0;
    assert data.pieces[..0] == [];
    NothingRead(rows);
    while i < |data.pieces|
      invariant i <= |data.pieces| && reader.Valid() && reader.rows == rows
      invariant reader.View() == ReadAll(rows, Reader(0, 0), Flatten(data.pieces[..i]))
    {
      var more := reader.Consume(data.pieces[i]);
      assert data.pieces[..i + 1] == data.pieces[..i] + [data.pieces[i]];
      FlattenSnoc(data.pieces[..i], data.pieces[i]);
      ReadConcat(rows, Reader(0, 0), Flatten(data.pieces[..i]), data.pieces[i]);
      if !more {
        StaysRejected(rows, data.pieces, i + 1);
        ReadsExactlyRows(rows, 0, Flatten(data.pieces));
        assert rows[0..] == rows;
        return false;
      }
      i := i + 1;
    }
    assert data.pieces[..i] == data.pieces && rows[0..] == rows;
    ReadsExactlyRows(rows, 0, Flatten(data.pieces));
    AtTheEnd(rows, reader.rowRemaining, reader.rowsRemaining);
    return data.complete && reader.rawOffset == reader.expectedSize && reader.rowRemaining == 0 && reader.rowsRemaining == 0;
  }

  /** The first loop of the validator. */
  method Totals(passes: seq<Pass>, width: nat, height: nat, bits: nat) returns (expectedSize: nat, rowsRemaining: nat)
    requires Steps(passes)
    ensures expectedSize == ExpectedSize(passes, width, height, bits) && rowsRemaining == RowCount(passes, height)
  {
    hide PassSize, PassHeight;
    var p := 0;
    expectedSize, rowsRemaining := 0, 0;
    assert passes[0..] == passes;
    while p < |passes|
      invariant p <= |passes|
      invariant Steps(passes[p..])
      invariant expectedSize + ExpectedSize(passes[p..], width, height, bits) == ExpectedSize(passes, width, height, bits)
      invariant rowsRemaining + RowCount(passes[p..], height) == RowCount(passes, height)
    {
      assert passes[p..][1..] == passes[p + 1..];
      expectedSize := expectedSize + PassSize(passes[p], width, height, bits);
      rowsRemaining := rowsRemaining + PassHeight(passes[p], height);
      p := p + 1;
    }
    assert passes[p..] == [];
  }

  lemma NothingRead(rows: seq<nat>)
    ensures ReadAll(rows, Reader(0, 0), Flatten<Byte>([])) == Reader(0, 0)
  {
  }

  lemma StaysRejected(rows: seq<nat>, pieces: seq<seq<Byte>>, i: nat)
    requires i <= |pieces| && ReadAll(rows, Reader(0, 0), Flatten(pieces[..i])) == Rejected
    ensures ReadAll(rows, Reader(0, 0), Flatten(pieces)) == Rejected
  {
    assert pieces == pieces[..i] + pieces[i..];
    FlattenConcat(pieces[..i], pieces[i..]);
    ReadConcat(rows, Reader(0, 0), Flatten(pieces[..i]), Flatten(pieces[i..]));
    RejectedForGood(rows, Flatten(pieces[i..]));
  }

  lemma AtTheEnd(rows: seq<nat>, remaining: nat, count: nat)
    requires count <= |rows|
    ensures count == 0 ==> Size(rows[|rows| - count..]) == 0
  {
  }
}
