/** The export plan of `onCropAndDownload` (src/App.js): for each size of a
    fixed manifest, the name of the zip entry, whether the S x S canvas is
    first filled with the background colour, and where the cropped image is
    drawn so that it fits the square without distortion and sits in its
    centre. Geometry is over the reals. */
module IconExport {
  import opened JsText
  import BackgroundColor

  /** The target sizes, in the order the loop visits them. */
  const Sizes: seq<nat> := [16, 32, 48, 64, 128, 256, 512]

  /** The zip entry name `icon_${size}x${size}.png`. */
  function EntryName(size: nat): (name: string)
    ensures "icon_" <= name
  {
    "icon_" + ToDecimal(size) + "x" + ToDecimal(size) + ".png"
  }

  /** The name is a PNG file name, and the size can be read back from it: it
      is the number written by the run of digits that starts right after
      "icon_". */
  lemma EntryNameReadBack(size: nat)
    ensures var name := EntryName(size);
            |name| >= 10 && name[|name| - 4..] == ".png" &&
            var n := PrefixLength(name[5..], 10);
            Value(name[5..][..n], 10) == size
  {
    var d := ToDecimal(size);
    var name := EntryName(size);
    var tail := "x" + d + ".png";
    assert name == "icon_" + (d + tail);
    assert name[5..] == d + tail;
    PrefixLengthOfDigitsThen(d, tail, 10);
    assert (d + tail)[..|d|] == d;
    assert name[|name| - 4..] == ".png";
  }

  /** Different sizes give different entry names, so no entry of the archive
      overwrites another. */
  lemma EntryNameInjective(a: nat, b: nat)
    ensures EntryName(a) == EntryName(b) ==> a == b
  {
    EntryNameReadBack(a);
    EntryNameReadBack(b);
  }

  lemma TwoDigitName(n: nat)
    requires 10 <= n < 100
    ensures var d := [DigitChar(n / 10), DigitChar(n % 10)];
            EntryName(n) == "icon_" + d + "x" + d + ".png"
  {
    assert ToDecimal(n / 10) == [DigitChar(n / 10)];
  }

  lemma ThreeDigitName(n: nat)
    requires 100 <= n < 1000
    ensures var d := [DigitChar(n / 100), DigitChar(n / 10 % 10), DigitChar(n % 10)];
            EntryName(n) == "icon_" + d + "x" + d + ".png"
  {
    assert ToDecimal(n / 100) == [DigitChar(n / 100)];
    assert n / 10 / 10 == n / 100;
    assert ToDecimal(n / 10) == [DigitChar(n / 100), DigitChar(n / 10 % 10)];
  }

  lemma TwoDigitNames()
    ensures EntryName(16) == "icon_16x16.png" && EntryName(32) == "icon_32x32.png"
    ensures EntryName(48) == "icon_48x48.png" && EntryName(64) == "icon_64x64.png"
  {
    TwoDigitName(16); TwoDigitName(32); TwoDigitName(48); TwoDigitName(64);
    assert DigitChar(1) == '1' && DigitChar(2) == '2' && DigitChar(3) == '3';
    assert DigitChar(4) == '4' && DigitChar(6) == '6' && DigitChar(8) == '8';
  }

  lemma ThreeDigitNames()
    ensures EntryName(128) == "icon_128x128.png" && EntryName(256) == "icon_256x256.png"
    ensures EntryName(512) == "icon_512x512.png"
  {
    ThreeDigitName(128); ThreeDigitName(256); ThreeDigitName(512);
    assert DigitChar(1) == '1' && DigitChar(2) == '2' && DigitChar(5) == '5';
    assert DigitChar(6) == '6' && DigitChar(8) == '8';
  }

  /** The archive entries, in manifest order, are named
      icon_16x16.png through icon_512x512.png. */
  lemma ManifestNames()
    ensures forall i :: 0 <= i < |Sizes| ==> EntryName(Sizes[i]) == EntryNames[i]
  {
    TwoDigitNames();
    ThreeDigitNames();
  }

  const EntryNames: seq<string> :=
    ["icon_16x16.png", "icon_32x32.png", "icon_48x48.png", "icon_64x64.png",
     "icon_128x128.png", "icon_256x256.png", "icon_512x512.png"]

  /** The cropped canvas, as far as the export sees it: its pixel size, which
      the image decoded from it shares. */
  datatype Canvas = Canvas(width: nat, height: nat)

  /** `ctx.fillStyle = color; ctx.fillRect(left, top, width, height)` */
  datatype Fill = Fill(color: string, left: real, top: real, width: real, height: real)

  /** One iteration of the export loop: the entry name, the target size, the
      background fill (if any), and where the image is drawn. */
  datatype Entry = Entry(name: string, size: nat, fill: Option<Fill>, placement: Placement)

  /** `Math.min(size / width, size / height)`: the largest uniform scale at
      which the image fits an S x S square; it makes one side exactly S. */
  function Scale(size: nat, width: nat, height: nat): (scale: real)
    requires width > 0 && height > 0
    ensures scale >= 0.0
    ensures width as real * scale <= size as real && height as real * scale <= size as real
    ensures width as real * scale == size as real || height as real * scale == size as real
  {
    var s, w, h := size as real, width as real, height as real;
    var a, b := s / w, s / h;
    assert w * a == s && h * b == s;
    if a <= b then
      assert h * a <= h * b;
      a
    else
      assert w * b <= w * a;
      b
  }

  /** No larger uniform scale fits: any scale that keeps both sides within
      S is at most `Scale`. */
  lemma ScaleIsLargestFit(size: nat, width: nat, height: nat, t: real)
    requires width > 0 && height > 0
    requires width as real * t <= size as real && height as real * t <= size as real
    ensures t <= Scale(size, width, height)
  {
    var s, w, h := size as real, width as real, height as real;
    assert t == (w * t) / w && (w * t) / w <= s / w;
    assert t == (h * t) / h && (h * t) / h <= s / h;
  }

  /** Drawing at a fitting scale: a rectangle of the image's proportions,
      within the square, touching two opposite sides, and centred. */
  lemma FitCentred(s: real, w: real, h: real, scale: real)
    requires w > 0.0 && h > 0.0 && scale >= 0.0
    requires w * scale <= s && h * scale <= s && (w * scale == s || h * scale == s)
    ensures var dw, dh := w * scale, h * scale;
            0.0 <= dw <= s && 0.0 <= dh <= s && (dw == s || dh == s) &&
            dw * h == dh * w &&
            (s - dw) / 2.0 >= 0.0 && (s - dw) / 2.0 + dw + (s - dw) / 2.0 == s &&
            (s - dh) / 2.0 >= 0.0 && (s - dh) / 2.0 + dh + (s - dh) / 2.0 == s
  {
    assert w * scale >= 0.0 && h * scale >= 0.0;
  }

  /** The rectangle `drawImage(img, x, y, width, height)` paints into. */
  datatype Placement = Placement(x: real, y: real, width: real, height: real)

  /** `x = (S - w * scale) / 2`, `y = (S - h * scale) / 2` and the drawn size
      `w * scale` by `h * scale`: the image keeps its aspect ratio, fits the
      S x S square with one side exactly S, and leaves equal margins left and
      right, and top and bottom. */
  function Place(size: nat, canvas: Canvas): (p: Placement)
    requires canvas.width > 0 && canvas.height > 0
    ensures 0.0 <= p.width <= size as real && 0.0 <= p.height <= size as real
    ensures p.width == size as real || p.height == size as real
    ensures p.width * canvas.height as real == p.height * canvas.width as real
    ensures p.x >= 0.0 && p.x + p.width + p.x == size as real
    ensures p.y >= 0.0 && p.y + p.height + p.y == size as real
  {
    var s, w, h := size as real, canvas.width as real, canvas.height as real;
    var scale := Scale(size, canvas.width, canvas.height);
    FitCentred(s, w, h, scale);
    Placement((s - w * scale) / 2.0, (s - h * scale) / 2.0, w * scale, h * scale)
  }

  /** The body of the loop for one target size: the entry name, the fill of
      the whole S x S canvas exactly when the background is not transparent,
      and the placement of the image. */
  function PlanEntry(size: nat, canvas: Canvas, backgroundColor: string): (e: Entry)
    requires canvas.width > 0 && canvas.height > 0
    ensures e.name == EntryName(size) && e.size == size
    ensures e.fill.Some? <==> backgroundColor != BackgroundColor.Transparent
    ensures e.fill.Some? ==> e.fill.value == Fill(backgroundColor, 0.0, 0.0, size as real, size as real)
    ensures e.placement == Place(size, canvas)
  {
    var s := size as real;
    var fill := if backgroundColor != BackgroundColor.Transparent
                then Some(Fill(backgroundColor, 0.0, 0.0, s, s)) else None;
    Entry(EntryName(size), size, fill, Place(size, canvas))
  }

  /** `onCropAndDownload` without its canvas, PNG and zip side effects: the
      entries it adds to the archive, in order. Nothing is produced when the
      cropper yields no canvas, nor when the canvas has no pixels (its data
      URL then holds no image, so the awaited `onload` never fires and the
      loop is never reached). Otherwise there is one entry per manifest size,
      in manifest order, sizes strictly increasing and names distinct. */
  method PlanExport(croppedCanvas: Option<Canvas>, backgroundColor: string) returns (plan: seq<Entry>)
    ensures croppedCanvas.None? ==> plan == []
    ensures croppedCanvas.Some? && (croppedCanvas.value.width == 0 || croppedCanvas.value.height == 0) ==>
              plan == []
    ensures croppedCanvas.Some? && croppedCanvas.value.width > 0 && croppedCanvas.value.height > 0 ==>
              |plan| == |Sizes| &&
              (forall i :: 0 <= i < |plan| ==>
                 plan[i] == PlanEntry(Sizes[i], croppedCanvas.value, backgroundColor))
    ensures forall i, j :: 0 <= i < j < |plan| ==>
              plan[i].size < plan[j].size && plan[i].name != plan[j].name
  {
    plan := [];
    if croppedCanvas.None? {
      return;
    }
    var canvas := croppedCanvas.value;
    if canvas.width == 0 || canvas.height == 0 {
      return;
    }
    var sizes := Sizes;
    for k := 0 to |sizes|
      invariant |plan| == k
      invariant forall i :: 0 <= i < k ==> plan[i] == PlanEntry(sizes[i], canvas, backgroundColor)
    {
      plan := plan + [PlanEntry(sizes[k], canvas, backgroundColor)];
    }
    forall i, j | 0 <= i < j < |plan|
      ensures plan[i].size < plan[j].size && plan[i].name != plan[j].name
    {
      EntryNameInjective(Sizes[i], Sizes[j]);
    }
  }
}
