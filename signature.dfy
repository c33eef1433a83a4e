/** `decode_sign`, nested in `generate_receipt`: a signature pad's data URL
    (RFC 2397) becomes a tone-inverted image, or None. Base64 decoding
    (section 4 of RFC 4648) and PNG decoding with conversion to greyscale are
    the `decode` parameter: a partial function whose None stands for any
    exception they raise. */
module Signature {
  import opened Wrappers
  import opened Text

  /** An 8-bit grey level (Pillow mode "L"). */
  type Level = p: int | 0 <= p <= 255

  datatype GreyImage = GreyImage(width: nat, height: nat, pixels: seq<Level>)

  /** `lambda p: 255 - p`; the subset type checks that it stays in 0..255. */
  function InvertLevel(p: Level): Level {
    255 - p
  }

  /** `Image.eval(img, lambda p: 255 - p)`. */
  function Invert(img: GreyImage): (r: GreyImage)
    ensures r.width == img.width && r.height == img.height && |r.pixels| == |img.pixels|
    ensures forall i :: 0 <= i < |img.pixels| ==> r.pixels[i] as int + img.pixels[i] as int == 255
  {
    img.(pixels := seq(|img.pixels|, i requires 0 <= i < |img.pixels| => InvertLevel(img.pixels[i])))
  }

  /** Inverting twice gives back the decoded image. */
  lemma InvertTwice(img: GreyImage)
    ensures Invert(Invert(img)) == img
  {
    assert Invert(Invert(img)).pixels == img.pixels;
  }

  /** Inversion swaps dark and light: a darker pixel becomes a lighter one. */
  lemma InvertReversesTone(img: GreyImage, i: nat, j: nat)
    requires i < |img.pixels| && j < |img.pixels|
    ensures img.pixels[i] < img.pixels[j] <==> Invert(img).pixels[i] > Invert(img).pixels[j]
  {
  }

  /** `s.split(",")[1] if "," in s else s`. */
  function Payload(s: string): (p: string)
    ensures ',' !in p
    ensures ',' !in s ==> p == s
  {
    SplitSpec(s, ',');
    if ',' in s then Split(s, ',')[1] else s
  }

  /** The payload is the text after the first comma, up to the next comma. */
  lemma {:induction false} PayloadIsSecondField(prefix: string, data: string, tail: string)
    requires ',' !in prefix && ',' !in data
    requires tail == [] || tail[0] == ','
    ensures Payload(prefix + [','] + data + tail) == data
  {
    var s := prefix + [','] + data + tail;
    assert s[|prefix|] == ',';
    assert s == prefix + [','] + (data + tail);
    SplitConcat(prefix, data + tail, ',');
    SplitSpec(prefix, ',');
    SplitSpec(data, ',');
    if tail == [] {
      assert data + tail == data;
    } else {
      assert data + tail == data + [','] + tail[1..];
      SplitConcat(data, tail[1..], ',');
    }
  }

  /** `decode_sign(s)`. */
  function DecodeSign(s: string, decode: string -> Option<GreyImage>): (r: Option<GreyImage>)
    ensures Payload(s) == [] ==> r.None?
    ensures Payload(s) != [] ==> (r.Some? <==> decode(Payload(s)).Some?)
    ensures r.Some? ==> Invert(r.value) == decode(Payload(s)).value
  {
    var p := Payload(s);
    if p == [] then None
    else match decode(p)
      case None => None
      case Some(img) => Some(Invert(img))
  }

  /** A data URL whose payload is empty gives no signature whatever the decoder does. */
  lemma EmptyPayloadNoSignature(prefix: string, decode: string -> Option<GreyImage>)
    requires ',' !in prefix
    ensures DecodeSign(prefix + [','], decode).None?
    ensures DecodeSign("", decode).None?
  {
    PayloadIsSecondField(prefix, "", "");
    assert prefix + [','] + "" + "" == prefix + [','];
  }

  /** A well-formed `data:image/png;base64,<payload>` decodes to an image of the
      decoded picture's dimensions. */
  lemma DataUrlKeepsDimensions(prefix: string, data: string, decode: string -> Option<GreyImage>)
    requires ',' !in prefix && ',' !in data && data != []
    requires decode(data).Some?
    ensures var r := DecodeSign(prefix + [','] + data, decode);
      r.Some? && r.value.width == decode(data).value.width && r.value.height == decode(data).value.height
  {
    PayloadIsSecondField(prefix, data, "");
    assert prefix + [','] + data + "" == prefix + [','] + data;
  }
}
