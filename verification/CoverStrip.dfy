/**
 * The cover as it is stored (stripImageMetadata in src/lib/cover-strip.ts): the walker goes by the
 * first byte, and GIF carries nothing that matters.
 */
module CoverStrip {
  import opened Bytes
  import opened ByteLists
  import JpegStrip
  import PngStrip
  import WebpStrip

  function Strip(l: ByteList): ByteList {
    if l == Nil then l
    else if At(l, 0) == 0xFF then JpegStrip.Strip(l)
    else if At(l, 0) == 0x89 then PngStrip.Strip(l)
    else if At(l, 0) == 0x52 then WebpStrip.Strip(l)
    else l
  }

  /** Which walker it is for does not change. */
  lemma FirstByteStays(l: ByteList)
    requires l != Nil
    ensures Strip(l) != Nil && At(Strip(l), 0) == At(l, 0)
  {
    if At(l, 0) == 0x89 && Strip(l) != l {
      var sig := Take(l, PngStrip.SIGNATURE);
      TakeAt(l, PngStrip.SIGNATURE, 0);
      FromAt(sig, 0, PngStrip.Put(PngStrip.Filter(PngStrip.Parse(Suffix(l, PngStrip.SIGNATURE)))), 0);
    } else if At(l, 0) == 0x52 && Strip(l) != l {
      WebpStrip.StripFilters(l);
    }
  }

  /** Storing a stored cover again changes nothing, whatever its bytes. */
  lemma StripTwice(l: ByteList)
    ensures Strip(Strip(l)) == Strip(l)
  {
    if l != Nil {
      FirstByteStays(l);
      JpegStrip.StripTwice(l);
      PngStrip.StripTwice(l);
      WebpStrip.StripTwice(l);
    }
  }

  method StripImageMetadata(b: seq<byte>) returns (out: seq<byte>)
    ensures From(out, 0, Nil) == Strip(From(b, 0, Nil))
  {
    if |b| == 0 { return b; }
    FromAt(b, 0, Nil, 0);
    if b[0] == 0xFF { out := JpegStrip.StripJpeg(b); return; }
    if b[0] == 0x89 { out := PngStrip.StripPng(b); return; }
    if b[0] == 0x52 { out := WebpStrip.StripWebp(b); return; }
    return b;
  }
}
