/**
 * The image steps the two classifier handlers share: metadata extraction from the primary
 * header, selection and merging of the science planes, clamping to [bottom, top] and the
 * vertical flip. Pixels are integers; the percentiles, rescaling, 8-bit truncation and
 * JPEG encoding are outside the model.
 */
module Normalize {
  import opened Wrappers
  import opened Events

  /** A 2-D array of pixels as a value; the shape is kept even when a dimension is 0. */
  datatype Matrix = Matrix(height: nat, width: nat, rows: seq<seq<int>>)

  predicate Shaped(m: Matrix)
  {
    |m.rows| == m.height && forall i :: 0 <= i < m.height ==> |m.rows[i]| == m.width
  }

  /** A decoded plane: rows of equal width. */
  type Plane = m: Matrix | Shaped(m) witness Matrix(0, 0, [])

  /** One Header Data Unit of a FITS file: its header and, unless it is header-only, its data. */
  datatype Hdu = Hdu(header: Item, data: Option<Plane>)

  /** `hdu_keys`: the primary-header keywords copied into the event's metadata. */
  const HduKeys: seq<string> := ["FILENAME", "FILETYPE", "TELESCOP", "INSTRUME", "TARGNAME",
    "RA_TARG", "DEC_TARG", "PROPOSID", "PR_INV_L", "PR_INV_F", "GYROMODE", "DATE-OBS",
    "TIME-OBS", "EXPTIME", "EXPFLAG", "OBSTYPE", "OBSMODE", "DETECTOR", "FILTER", "APERTURE"]

  /**
   * `{key: header[key] for key in keys if key in header_keys}`: the keywords present in the
   * header, in the order of `keys`, with their header values; absent ones are left out.
   */
  function MetadataOf(keys: seq<string>, header: Item): (m: Metadata)
    ensures forall i :: 0 <= i < |m| ==> m[i].0 in keys && m[i].0 in header && m[i].1 == header[m[i].0]
    ensures |m| <= |keys|
  {
    if keys == [] then []
    else
      var k := keys[|keys| - 1];
      var init := MetadataOf(keys[..|keys| - 1], header);
      var m := if k in header then init + [(k, header[k])] else init;
      assert forall j :: j in keys[..|keys| - 1] ==> j in keys;
      m
  }

  /** Every listed keyword that the header has makes it into the metadata. */
  lemma {:induction false} MetadataComplete(keys: seq<string>, header: Item, k: string)
    requires k in keys && k in header
    ensures exists i :: 0 <= i < |MetadataOf(keys, header)| && MetadataOf(keys, header)[i] == (k, header[k])
  {
    var last := keys[|keys| - 1];
    var init := keys[..|keys| - 1];
    var m := MetadataOf(keys, header);
    if k == last {
      assert m[|m| - 1] == (k, header[k]);
    } else {
      assert k in init by {
        assert keys == init + [last];
      }
      MetadataComplete(init, header, k);
      var i :| 0 <= i < |MetadataOf(init, header)| && MetadataOf(init, header)[i] == (k, header[k]);
      assert m[i] == MetadataOf(init, header)[i];
    }
  }

  /** No key occurs twice. */
  predicate DistinctKeys(m: Metadata)
  {
    forall i, j :: 0 <= i < j < |m| ==> m[i].0 != m[j].0
  }

  /** The metadata keeps the order of the keyword list, so distinct keywords give distinct keys. */
  lemma {:induction false} MetadataKeysDistinct(keys: seq<string>, header: Item)
    requires forall i, j :: 0 <= i < j < |keys| ==> keys[i] != keys[j]
    ensures DistinctKeys(MetadataOf(keys, header))
  {
    if keys != [] {
      var init := keys[..|keys| - 1];
      assert forall i, j :: 0 <= i < j < |init| ==> init[i] == keys[i] && init[j] == keys[j];
      MetadataKeysDistinct(init, header);
      var k := keys[|keys| - 1];
      assert forall j :: 0 <= j < |init| ==> init[j] != k;
      var mi := MetadataOf(init, header);
      assert forall i :: 0 <= i < |mi| ==> mi[i].0 != k;
      var m := MetadataOf(keys, header);
      assert m == if k in header then mi + [(k, header[k])] else mi;
      forall i, j | 0 <= i < j < |m|
        ensures m[i].0 != m[j].0
      {
        if j < |mi| {
          assert m[i] == mi[i] && m[j] == mi[j];
        } else {
          assert m[i] == mi[i] && m[j].0 == k;
        }
      }
    }
  }

  /** Which data the handler goes on with: one plane, or two halves of one detector. */
  datatype Selection = Single(plane: Plane) | Halves(first: Plane, second: Plane)

  /** More than four HDUs, and HDU 4's EXTNAME is 'SCI': the condition of line 77. */
  predicate SciPair(hdus: seq<Hdu>)
  {
    |hdus| > 4 && "EXTNAME" in hdus[4].header && hdus[4].header["EXTNAME"] == Str("SCI")
  }

  /**
   * Lines 73-86: HDUs 1 and 4 are the two halves exactly when there are more than four HDUs
   * and HDU 4's EXTNAME is 'SCI'; otherwise HDU 1 alone. A missing EXTNAME raises KeyError,
   * a missing HDU 1 IndexError; a header-only HDU (no data) fails with AttributeError when
   * its `.shape` is read for the merge, and with TypeError when it reaches `np.percentile`.
   */
  function SelectPlanes(hdus: seq<Hdu>): (r: Result<Selection>)
    ensures r.Ok? && r.value.Halves? ==>
      |hdus| > 4 && "EXTNAME" in hdus[4].header && hdus[4].header["EXTNAME"] == Str("SCI") &&
      hdus[1].data == Some(r.value.first) && hdus[4].data == Some(r.value.second)
    ensures r.Ok? && r.value.Single? ==>
      |hdus| > 1 && hdus[1].data == Some(r.value.plane) &&
      (|hdus| <= 4 || ("EXTNAME" in hdus[4].header && hdus[4].header["EXTNAME"] != Str("SCI")))
    ensures |hdus| > 4 && "EXTNAME" !in hdus[4].header ==> r == Err(KeyError("EXTNAME"))
    ensures |hdus| < 2 ==> r == Err(IndexError)
    ensures SciPair(hdus) && hdus[1].data.Some? && hdus[4].data.Some? ==>
      r == Ok(Halves(hdus[1].data.value, hdus[4].data.value))
    ensures SciPair(hdus) && (hdus[1].data.None? || hdus[4].data.None?) ==> r == Err(AttributeError)
    ensures |hdus| > 1 && !SciPair(hdus) && (|hdus| <= 4 || "EXTNAME" in hdus[4].header) ==>
      r == if hdus[1].data.Some? then Ok(Single(hdus[1].data.value)) else Err(TypeError)
  {
    if |hdus| > 4 && "EXTNAME" !in hdus[4].header then Err(KeyError("EXTNAME"))
    else if |hdus| > 4 && hdus[4].header["EXTNAME"] == Str("SCI") then
      if hdus[1].data.None? || hdus[4].data.None? then Err(AttributeError)
      else Ok(Halves(hdus[1].data.value, hdus[4].data.value))
    else if |hdus| < 2 then Err(IndexError)
    else if hdus[1].data.None? then Err(TypeError)
    else Ok(Single(hdus[1].data.value))
  }

  /** numpy can assign `src` to a `rows` x `cols` slice: each dimension equal, or 1 and stretched. */
  predicate Broadcasts(src: Plane, rows: nat, cols: nat)
  {
    (src.height == rows || src.height == 1) && (src.width == cols || src.width == 1)
  }

  /** The source pixel that lands at (i, j) of the slice. */
  function BroadcastAt(src: Plane, rows: nat, cols: nat, i: nat, j: nat): int
    requires Broadcasts(src, rows, cols) && i < rows && j < cols
  {
    src.rows[if src.height == 1 then 0 else i][if src.width == 1 then 0 else j]
  }

  /**
   * Lines 77-83 as a function: a zero matrix of height h1 + h2 and the first plane's width,
   * the first plane assigned to rows [0, half) and the second to [half, height), where
   * half = (h1 + h2) / 2. An assignment numpy cannot broadcast fails.
   */
  function Merged(first: Plane, second: Plane): Result<Plane>
  {
    var height := first.height + second.height;
    var width := first.width;
    var half := height / 2;
    if Broadcasts(first, half, width) && Broadcasts(second, height - half, width) then
      Ok(Matrix(height, width, seq(height, i requires 0 <= i < height =>
        seq(width, j requires 0 <= j < width =>
          if i < half then BroadcastAt(first, half, width, i, j)
          else BroadcastAt(second, height - half, width, i - half, j)))))
    else Err(DimensionMismatch)
  }

  /**
   * For two planes taller than one row and wider than one column (numpy stretches nothing),
   * the merge succeeds exactly when the widths agree and the second plane is as tall as the
   * first or one row taller; the first plane's rows then come first and the second's after.
   */
  lemma MergedHalves(first: Plane, second: Plane)
    requires first.height > 1 && second.height > 1 && second.width > 1
    ensures Merged(first, second).Ok? <==>
      first.width == second.width && (second.height == first.height || second.height == first.height + 1)
    ensures Merged(first, second).Ok? ==>
      var m := Merged(first, second).value;
      m.height == first.height + second.height && m.width == first.width &&
      m.rows[..first.height] == first.rows && m.rows[first.height..] == second.rows
  {
    if Merged(first, second).Ok? {
      MergedFirstRows(first, second);
      MergedSecondRows(first, second);
    }
  }

  lemma MergedFirstRows(first: Plane, second: Plane)
    requires first.height > 1 && second.height > 1 && Merged(first, second).Ok?
    ensures Merged(first, second).value.rows[..first.height] == first.rows
  {
    var height := first.height + second.height;
    assert first.height == height / 2;
    var m := Merged(first, second).value;
    forall i | 0 <= i < first.height
      ensures m.rows[..first.height][i] == first.rows[i]
    {
      assert m.rows[i] == first.rows[i];
    }
  }

  lemma MergedSecondRows(first: Plane, second: Plane)
    requires first.height > 1 && second.height > 1 && second.width > 1 && Merged(first, second).Ok?
    ensures Merged(first, second).value.rows[first.height..] == second.rows
  {
    var height := first.height + second.height;
    var half := height / 2;
    assert first.height == half;
    var m := Merged(first, second).value;
    assert second.width == first.width && second.height == height - half;
    forall i | 0 <= i < second.height
      ensures m.rows[first.height..][i] == second.rows[i]
    {
      forall j | 0 <= j < first.width
        ensures m.rows[first.height + i][j] == second.rows[i][j]
      {
        assert m.rows[first.height + i][j] == BroadcastAt(second, height - half, first.width, first.height + i - half, j);
      }
      assert m.rows[first.height + i] == second.rows[i];
    }
  }

  /** Lines 77-83 as numpy runs them: allocate zeros, then the two slice assignments. */
  method Merge(first: Plane, second: Plane) returns (r: Result<Plane>)
    ensures r == Merged(first, second)
  {
    var height := first.height + second.height;
    var width := first.width;
    var half := height / 2;
    var temp := new int[height, width]((i, j) => 0);
    if !Broadcasts(first, half, width) {
      return Err(DimensionMismatch);
    }
    AssignRows(temp, 0, half, first);
    if !Broadcasts(second, height - half, width) {
      return Err(DimensionMismatch);
    }
    ghost var afterFirst := ToPlane(temp);
    AssignRows(temp, half, height, second);
    var merged := ToPlane(temp);
    assert forall i, j :: 0 <= i < half && 0 <= j < width ==> merged.rows[i][j] == afterFirst.rows[i][j];
    MergedFromPixels(first, second, merged);
    r := Ok(merged);
  }

  /** A plane holding, pixel by pixel, what the two slice assignments put there is the merge. */
  lemma MergedFromPixels(first: Plane, second: Plane, merged: Plane)
    requires var height := first.height + second.height; var half := height / 2;
      Broadcasts(first, half, first.width) && Broadcasts(second, height - half, first.width) &&
      merged.height == height && merged.width == first.width &&
      (forall i, j :: 0 <= i < half && 0 <= j < first.width ==>
        merged.rows[i][j] == BroadcastAt(first, half, first.width, i, j)) &&
      (forall i, j :: half <= i < height && 0 <= j < first.width ==>
        merged.rows[i][j] == BroadcastAt(second, height - half, first.width, i - half, j))
    ensures Merged(first, second) == Ok(merged)
  {
    var spec := Merged(first, second).value;
    forall i | 0 <= i < merged.height
      ensures merged.rows[i] == spec.rows[i]
    {
    }
    assert merged.rows == spec.rows;
  }

  /** The pixels of an array, as a value. */
  function ToPlane(a: array2<int>): (p: Plane)
    reads a
    ensures p.height == a.Length0 && p.width == a.Length1
    ensures forall i, j :: 0 <= i < a.Length0 && 0 <= j < a.Length1 ==> p.rows[i][j] == a[i, j]
  {
    Matrix(a.Length0, a.Length1, seq(a.Length0, i requires 0 <= i < a.Length0 reads a =>
      seq(a.Length1, j requires 0 <= j < a.Length1 reads a => a[i, j])))
  }

  /** `temp[lo:hi, :] = src`, the rows outside [lo, hi) untouched. */
  method AssignRows(temp: array2<int>, lo: nat, hi: nat, src: Plane)
    requires lo <= hi <= temp.Length0 && Broadcasts(src, hi - lo, temp.Length1)
    modifies temp
    ensures forall i, j :: lo <= i < hi && 0 <= j < temp.Length1 ==>
      temp[i, j] == BroadcastAt(src, hi - lo, temp.Length1, i - lo, j)
    ensures forall i, j :: 0 <= i < temp.Length0 && !(lo <= i < hi) && 0 <= j < temp.Length1 ==>
      temp[i, j] == old(temp[i, j])
  {
    for i := lo to hi
      invariant forall i', j :: lo <= i' < i && 0 <= j < temp.Length1 ==>
        temp[i', j] == BroadcastAt(src, hi - lo, temp.Length1, i' - lo, j)
      invariant forall i', j :: 0 <= i' < temp.Length0 && !(lo <= i' < i) && 0 <= j < temp.Length1 ==>
        temp[i', j] == old(temp[i', j])
    {
      for j := 0 to temp.Length1
        invariant forall i', j' :: lo <= i' < i && 0 <= j' < temp.Length1 ==>
          temp[i', j'] == BroadcastAt(src, hi - lo, temp.Length1, i' - lo, j')
        invariant forall j' :: 0 <= j' < j ==> temp[i, j'] == BroadcastAt(src, hi - lo, temp.Length1, i - lo, j')
        invariant forall i', j' :: 0 <= i' < temp.Length0 && !(lo <= i' <= i) && 0 <= j' < temp.Length1 ==>
          temp[i', j'] == old(temp[i', j'])
        invariant forall j' :: j <= j' < temp.Length1 ==> temp[i, j'] == old(temp[i, j'])
      {
        temp[i, j] := BroadcastAt(src, hi - lo, temp.Length1, i - lo, j);
      }
    }
  }

  /** The plane's pixels in a fresh array, which the clamps then change in place. */
  method ToArray(p: Plane) returns (a: array2<int>)
    ensures fresh(a)
    ensures ToPlane(a) == p
  {
    a := new int[p.height, p.width]((i, j) requires 0 <= i < p.height && 0 <= j < p.width => p.rows[i][j]);
    assert forall i :: 0 <= i < p.height ==> ToPlane(a).rows[i] == p.rows[i];
  }

  /** One pixel after `data[data > top] = top` and then `data[data < bottom] = bottom`. */
  function ClampValue(x: int, bottom: int, top: int): int
  {
    var y := if x > top then top else x;
    if y < bottom then bottom else y
  }

  /** Both clamps over a whole plane. */
  function ClampPlane(p: Plane, bottom: int, top: int): Plane
  {
    Matrix(p.height, p.width, seq(p.height, i requires 0 <= i < p.height =>
      seq(p.width, j requires 0 <= j < p.width => ClampValue(p.rows[i][j], bottom, top))))
  }

  /**
   * After the clamps no pixel is below `bottom`, and none above `top` when `bottom <= top`;
   * pixels already in range are untouched, and the shape is kept.
   */
  lemma ClampBounds(p: Plane, bottom: int, top: int, i: nat, j: nat)
    requires i < p.height && j < p.width
    ensures ClampPlane(p, bottom, top).height == p.height && ClampPlane(p, bottom, top).width == p.width
    ensures var c := ClampPlane(p, bottom, top).rows[i][j];
      bottom <= c && (bottom <= top ==> c <= top) &&
      (bottom <= p.rows[i][j] <= top ==> c == p.rows[i][j])
  {
  }

  /** Clamping twice to the same bounds changes nothing more. */
  lemma ClampIdempotent(p: Plane, bottom: int, top: int)
    requires bottom <= top
    ensures ClampPlane(ClampPlane(p, bottom, top), bottom, top) == ClampPlane(p, bottom, top)
  {
    var once := ClampPlane(p, bottom, top);
    var twice := ClampPlane(once, bottom, top);
    forall i | 0 <= i < p.height
      ensures twice.rows[i] == once.rows[i]
    {
    }
    assert twice.rows == once.rows;
  }

  /** `data[data > top] = top`, in place. */
  method ClampAbove(a: array2<int>, top: int)
    modifies a
    ensures forall i, j :: 0 <= i < a.Length0 && 0 <= j < a.Length1 ==>
      a[i, j] == if old(a[i, j]) > top then top else old(a[i, j])
  {
    for i := 0 to a.Length0
      invariant forall i', j :: 0 <= i' < i && 0 <= j < a.Length1 ==>
        a[i', j] == if old(a[i', j]) > top then top else old(a[i', j])
      invariant forall i', j :: i <= i' < a.Length0 && 0 <= j < a.Length1 ==> a[i', j] == old(a[i', j])
    {
      for j := 0 to a.Length1
        invariant forall i', j' :: 0 <= i' < i && 0 <= j' < a.Length1 ==>
          a[i', j'] == if old(a[i', j']) > top then top else old(a[i', j'])
        invariant forall j' :: 0 <= j' < j ==> a[i, j'] == if old(a[i, j']) > top then top else old(a[i, j'])
        invariant forall i', j' :: i < i' < a.Length0 && 0 <= j' < a.Length1 ==> a[i', j'] == old(a[i', j'])
        invariant forall j' :: j <= j' < a.Length1 ==> a[i, j'] == old(a[i, j'])
      {
        if a[i, j] > top {
          a[i, j] := top;
        }
      }
    }
  }

  /** `data[data < bottom] = bottom`, in place. */
  method ClampBelow(a: array2<int>, bottom: int)
    modifies a
    ensures forall i, j :: 0 <= i < a.Length0 && 0 <= j < a.Length1 ==>
      a[i, j] == if old(a[i, j]) < bottom then bottom else old(a[i, j])
  {
    for i := 0 to a.Length0
      invariant forall i', j :: 0 <= i' < i && 0 <= j < a.Length1 ==>
        a[i', j] == if old(a[i', j]) < bottom then bottom else old(a[i', j])
      invariant forall i', j :: i <= i' < a.Length0 && 0 <= j < a.Length1 ==> a[i', j] == old(a[i', j])
    {
      for j := 0 to a.Length1
        invariant forall i', j' :: 0 <= i' < i && 0 <= j' < a.Length1 ==>
          a[i', j'] == if old(a[i', j']) < bottom then bottom else old(a[i', j'])
        invariant forall j' :: 0 <= j' < j ==> a[i, j'] == if old(a[i, j']) < bottom then bottom else old(a[i, j'])
        invariant forall i', j' :: i < i' < a.Length0 && 0 <= j' < a.Length1 ==> a[i', j'] == old(a[i', j'])
        invariant forall j' :: j <= j' < a.Length1 ==> a[i, j'] == old(a[i, j'])
      {
        if a[i, j] < bottom {
          a[i, j] := bottom;
        }
      }
    }
  }

  /** `np.flipud`: the rows in reverse order. */
  function FlipUd(p: Plane): Plane
  {
    Matrix(p.height, p.width, seq(p.height, i requires 0 <= i < p.height => p.rows[p.height - 1 - i]))
  }

  /** The flip keeps the shape, puts row H-1-i at i, and undoes itself. */
  lemma FlipUdInvolution(p: Plane)
    ensures FlipUd(p).height == p.height && FlipUd(p).width == p.width
    ensures forall i :: 0 <= i < p.height ==> FlipUd(p).rows[i] == p.rows[p.height - 1 - i]
    ensures FlipUd(FlipUd(p)) == p
  {
    assert FlipUd(FlipUd(p)).rows == p.rows;
  }

  /** The plane the handlers normalise, or why there is none. */
  function Selected(hdus: seq<Hdu>): Result<Plane>
  {
    match SelectPlanes(hdus)
    case Err(e) => Err(e)
    case Ok(Single(p)) => Ok(p)
    case Ok(Halves(first, second)) => Merged(first, second)
  }

  /**
   * Lines 68-100 of the AutoML handler, up to the flip. A plane without a pixel stops the
   * handler: `np.percentile` (line 92) or, at the latest, `data.min()` (line 98) raises on it.
   */
  function Normalized(hdus: seq<Hdu>, top: int, bottom: int): Result<Plane>
  {
    match Selected(hdus)
    case Err(e) => Err(e)
    case Ok(p) => if p.height == 0 || p.width == 0 then Err(ZeroSizeArray) else Ok(FlipUd(ClampPlane(p, bottom, top)))
  }

  /**
   * The normalised plane has HDU 1's height, or the sum of both halves' heights when they
   * were merged, it has at least one pixel, and every pixel lies in [bottom, top] when
   * bottom <= top.
   */
  lemma NormalizedShape(hdus: seq<Hdu>, top: int, bottom: int)
    requires Normalized(hdus, top, bottom).Ok?
    ensures var n := Normalized(hdus, top, bottom).value;
      match SelectPlanes(hdus)
      case Ok(Single(p)) => n.height == p.height && n.width == p.width
      case Ok(Halves(first, second)) => n.height == first.height + second.height && n.width == first.width
      case Err(_) => false
    ensures var n := Normalized(hdus, top, bottom).value;
      n.height > 0 && n.width > 0
    ensures var n := Normalized(hdus, top, bottom).value;
      forall i, j :: 0 <= i < n.height && 0 <= j < n.width ==>
        bottom <= n.rows[i][j] && (bottom <= top ==> n.rows[i][j] <= top)
  {
    var p := Selected(hdus).value;
    assert Normalized(hdus, top, bottom) == Ok(FlipUd(ClampPlane(p, bottom, top)));
    ClampFlipShape(p, bottom, top);
  }

  /** Clamping then flipping keeps the shape and leaves every pixel in [bottom, top]. */
  lemma ClampFlipShape(p: Plane, bottom: int, top: int)
    ensures var n := FlipUd(ClampPlane(p, bottom, top));
      n.height == p.height && n.width == p.width &&
      forall i, j :: 0 <= i < n.height && 0 <= j < n.width ==>
        bottom <= n.rows[i][j] && (bottom <= top ==> n.rows[i][j] <= top)
  {
    var c := ClampPlane(p, bottom, top);
    var n := FlipUd(c);
    if p.height > 0 && p.width > 0 {
      ClampBounds(p, bottom, top, 0, 0);
    }
    FlipUdInvolution(c);
    forall i, j | 0 <= i < n.height && 0 <= j < n.width
      ensures bottom <= n.rows[i][j] && (bottom <= top ==> n.rows[i][j] <= top)
    {
      ClampBounds(p, bottom, top, p.height - 1 - i, j);
    }
  }

  /** Lines 68-100: select, merge when needed, clamp in place, flip. */
  method Normalize(hdus: seq<Hdu>, top: int, bottom: int) returns (r: Result<Plane>)
    ensures r == Normalized(hdus, top, bottom)
  {
    var selection := SelectPlanes(hdus);
    if selection.Err? {
      return Err(selection.error);
    }
    var data: Plane;
    match selection.value {
      case Single(p) =>
        data := p;
      case Halves(first, second) =>
        var merged := Merge(first, second);
        if merged.Err? {
          return Err(merged.error);
        }
        data := merged.value;
    }
    if data.height == 0 || data.width == 0 {
      return Err(ZeroSizeArray);
    }
    var clamped := Clamp(data, bottom, top);
    r := Ok(FlipUd(clamped));
  }

  /** Lines 92-95: the plane copied to an array, clamped from above and then from below in place. */
  method Clamp(p: Plane, bottom: int, top: int) returns (clamped: Plane)
    ensures clamped == ClampPlane(p, bottom, top)
  {
    var a := ToArray(p);
    ClampAbove(a, top);
    ClampBelow(a, bottom);
    clamped := ToPlane(a);
    forall i | 0 <= i < p.height
      ensures clamped.rows[i] == ClampPlane(p, bottom, top).rows[i]
    {
    }
  }

  /** Lines 69-100 of either classifier: the primary header's metadata and the normalised plane. */
  function Prepared(hdus: seq<Hdu>, top: int, bottom: int): Result<(Metadata, Plane)>
  {
    if hdus == [] then Err(IndexError)
    else
      match Normalized(hdus, top, bottom)
      case Err(e) => Err(e)
      case Ok(p) => Ok((MetadataOf(HduKeys, hdus[0].header), p))
  }

  /**
   * A selected plane without a pixel is refused before anything is staged or classified;
   * a plane with pixels is prepared.
   */
  lemma PixelsRequired(hdus: seq<Hdu>, top: int, bottom: int)
    requires hdus != [] && Selected(hdus).Ok?
    ensures var p := Selected(hdus).value;
      Prepared(hdus, top, bottom).Ok? <==> p.height > 0 && p.width > 0
    ensures var p := Selected(hdus).value;
      p.height == 0 || p.width == 0 ==> Prepared(hdus, top, bottom) == Err(ZeroSizeArray)
  {
  }

  method Prepare(hdus: seq<Hdu>, top: int, bottom: int) returns (r: Result<(Metadata, Plane)>)
    ensures r == Prepared(hdus, top, bottom)
  {
    if |hdus| == 0 {
      return Err(IndexError);
    }
    var metadata := MetadataOf(HduKeys, hdus[0].header);
    var plane := Normalize(hdus, top, bottom);
    if plane.Err? {
      return Err(plane.error);
    }
    r := Ok((metadata, plane.value));
  }
}
