/** The channel-isolation filter: eleven views of one decoded image, the
    original, four single-channel images on black, four on white, and two
    contrast adjustments (left abstract). */
module ImageFilter {
  import opened Common

  /** The per-pixel map of isolation output k, for k in 1..8. */
  function Isolation(k: nat, p: Rgba): (q: Rgba)
    requires 1 <= k <= 8
    ensures k <= 4 ==> forall c :: 0 <= c < 4 ==> Channel(q, c) == (if c == k - 1 then Channel(p, c) else 0)
    ensures k >= 5 ==> forall c :: 0 <= c < 4 ==> Channel(q, c) == (if c == k - 5 then Channel(p, c) else 255)
  {
    match k
    case 1 => Rgba(p.r, 0, 0, 0)
    case 2 => Rgba(0, p.g, 0, 0)
    case 3 => Rgba(0, 0, p.b, 0)
    case 4 => Rgba(0, 0, 0, p.a)
    case 5 => Rgba(p.r, 255, 255, 255)
    case 6 => Rgba(255, p.g, 255, 255)
    case 7 => Rgba(255, 255, p.b, 255)
    case 8 => Rgba(255, 255, 255, p.a)
  }

  function MapAll(ps: seq<Rgba>, k: nat): (qs: seq<Rgba>)
    requires 1 <= k <= 8
    ensures |qs| == |ps|
    ensures forall i :: 0 <= i < |ps| ==> qs[i] == Isolation(k, ps[i])
  {
    if ps == [] then [] else [Isolation(k, ps[0])] + MapAll(ps[1..], k)
  }

  /** `flat_map` of the pixels to their four bytes. */
  function Flatten(ps: seq<Rgba>): (bytes: seq<byte>)
    ensures |bytes| == 4 * |ps|
  {
    if ps == [] then [] else [ps[0].r, ps[0].g, ps[0].b, ps[0].a] + Flatten(ps[1..])
  }

  /** The pixels of a raw RGBA buffer, four bytes each. */
  function Unflatten(bytes: seq<byte>): (ps: seq<Rgba>)
    requires |bytes| % 4 == 0
    ensures 4 * |ps| == |bytes|
  {
    if bytes == [] then [] else [Rgba(bytes[0], bytes[1], bytes[2], bytes[3])] + Unflatten(bytes[4..])
  }

  /** Reading a flattened buffer back gives the same pixels. */
  lemma {:induction false} UnflattenFlatten(ps: seq<Rgba>)
    ensures Unflatten(Flatten(ps)) == ps
  {
    if ps != [] {
      var bytes := Flatten(ps);
      assert bytes[4..] == Flatten(ps[1..]);
      UnflattenFlatten(ps[1..]);
    }
  }

  /** `ImageBuffer::from_vec`: no image when the buffer is shorter than
      width · height pixels of four bytes. */
  function FromVec(width: nat, height: nat, bytes: seq<byte>): Option<RgbaImage> {
    if |bytes| < 4 * (width * height) then None
    else Some(RgbaImage(width, height, Unflatten(bytes[..4 * (width * height)])))
  }

  /** Output k of the filter before its `expect`. */
  function Isolate(img: RgbaImage, k: nat): Option<RgbaImage>
    requires 1 <= k <= 8
  {
    FromVec(img.width, img.height, Flatten(MapAll(img.pixels, k)))
  }

  /** The buffer built for each isolation output has exactly the input's
      size, so `from_vec` always succeeds and keeps width, height and pixel
      order. */
  lemma IsolateSucceeds(img: RgbaImage, k: nat)
    requires img.WellFormed() && 1 <= k <= 8
    ensures Isolate(img, k) == Some(RgbaImage(img.width, img.height, MapAll(img.pixels, k)))
  {
    var bytes := Flatten(MapAll(img.pixels, k));
    assert bytes[..4 * (img.width * img.height)] == bytes;
    UnflattenFlatten(MapAll(img.pixels, k));
  }

  /** `ImageFilterAnalyzer::analyze`: eleven outputs, of which the last two
      are the contrast adjustments by -10 and +10. The error type has no
      values; `()` stands for it, and `Panic` for a failing `expect`. */
  function Analyze(img: RgbaImage, adjustContrast: (RgbaImage, real) -> RgbaImage): (r: Result<seq<RgbaImage>, ()>)
    requires img.WellFormed()
    ensures r.Ok? && |r.value| == 11
    ensures r.value[0] == img
    ensures forall k :: 1 <= k <= 8 ==> r.value[k] == RgbaImage(img.width, img.height, MapAll(img.pixels, k))
    ensures r.value[9] == adjustContrast(img, -10.0) && r.value[10] == adjustContrast(img, 10.0)
  {
    IsolateSucceeds(img, 1); IsolateSucceeds(img, 2); IsolateSucceeds(img, 3); IsolateSucceeds(img, 4);
    IsolateSucceeds(img, 5); IsolateSucceeds(img, 6); IsolateSucceeds(img, 7); IsolateSucceeds(img, 8);
    var o1, o2, o3, o4 := Isolate(img, 1), Isolate(img, 2), Isolate(img, 3), Isolate(img, 4);
    var o5, o6, o7, o8 := Isolate(img, 5), Isolate(img, 6), Isolate(img, 7), Isolate(img, 8);
    if o1.Some? && o2.Some? && o3.Some? && o4.Some? && o5.Some? && o6.Some? && o7.Some? && o8.Some? then
      Ok([img, o1.value, o2.value, o3.value, o4.value, o5.value, o6.value, o7.value, o8.value,
          adjustContrast(img, -10.0), adjustContrast(img, 10.0)])
    else Panic
  }

  /** The four black-background outputs hold the input's channels between
      them, and so do the four white-background ones. */
  lemma IsolationsRecombine(img: RgbaImage, adjustContrast: (RgbaImage, real) -> RgbaImage, i: nat)
    requires img.WellFormed() && i < |img.pixels|
    ensures var out := Analyze(img, adjustContrast).value;
      && Rgba(out[1].pixels[i].r, out[2].pixels[i].g, out[3].pixels[i].b, out[4].pixels[i].a) == img.pixels[i]
      && Rgba(out[5].pixels[i].r, out[6].pixels[i].g, out[7].pixels[i].b, out[8].pixels[i].a) == img.pixels[i]
      && out[1].pixels[i].a == out[2].pixels[i].a == out[3].pixels[i].a == 0
  {
    var out := Analyze(img, adjustContrast).value;
    assert out[1].pixels == MapAll(img.pixels, 1) && out[2].pixels == MapAll(img.pixels, 2);
    assert out[3].pixels == MapAll(img.pixels, 3) && out[4].pixels == MapAll(img.pixels, 4);
    assert out[5].pixels == MapAll(img.pixels, 5) && out[6].pixels == MapAll(img.pixels, 6);
    assert out[7].pixels == MapAll(img.pixels, 7) && out[8].pixels == MapAll(img.pixels, 8);
  }
}
