/** Colours and their PPM text: each channel scaled by 255.999 and cast to
    `u8`, the three bytes written as decimals separated by single spaces. */
module Colors {
  import opened Numeric
  import opened Vector
  import opened Text

  /** `Color(pub Vec3)`: red, green and blue are `x`, `y` and `z`. */
  type Color = Vec3

  /** `Color::new()`. */
  const BLACK: Color := Vec3(0.0, 0.0, 0.0)
  /** `Color::WHITE`, the top of the sky gradient's blend. */
  const WHITE: Color := Vec3(1.0, 1.0, 1.0)
  /** `Color::BLEND`, the light blue at the top of the sky. */
  const BLEND: Color := Vec3(0.5, 0.7, 1.0)

  const CHANNEL_SCALE: real := 255.999

  /** `(c * 255.999) as u8`: the fraction truncated, out-of-range values
      saturated, no clamping or gamma applied first. */
  function Channel(c: real): (n: u8)
    ensures c <= 0.0 ==> n == 0
    ensures c >= 1.0 ==> n == 255
    ensures 0.0 <= c * CHANNEL_SCALE < 256.0 ==> n as real <= c * CHANNEL_SCALE < n as real + 1.0
  {
    CastUnsigned(Finite(c * CHANNEL_SCALE), U8_MAX)
  }

  lemma ChannelEndpoints()
    ensures Channel(0.0) == 0 && Channel(1.0) == 255
    ensures Channel(0.5) == 127
  {
  }

  /** A brighter channel never quantises to a smaller byte. */
  lemma ChannelMonotone(c1: real, c2: real)
    requires c1 <= c2
    ensures Channel(c1) <= Channel(c2)
  {
    assert c1 * CHANNEL_SCALE <= c2 * CHANNEL_SCALE;
  }

  datatype Rgb = Rgb(r: u8, g: u8, b: u8)

  function Quantize(c: Color): Rgb {
    Rgb(Channel(c.x), Channel(c.y), Channel(c.z))
  }

  /** Three pieces without spaces, joined by single spaces, split back apart. */
  lemma SplitThree(a: string, b: string, c: string)
    requires ' ' !in a && ' ' !in b && ' ' !in c
    ensures Split(a + " " + b + " " + c, ' ') == [a, b, c]
  {
    SplitWithoutSeparator(c, ' ');
    SplitAfterPiece(b, ' ', c);
    SplitAfterPiece(a, ' ', b + " " + c);
    assert a + " " + b + " " + c == a + [' '] + (b + [' '] + c);
  }

  /** `Display for Color`: three decimals separated by single spaces, with no
      separator before the first or after the last and no line break. */
  function ColorText(c: Color): (s: string)
    ensures var q := Quantize(c);
      Split(s, ' ') == [Decimal(q.r), Decimal(q.g), Decimal(q.b)]
    ensures '\n' !in s
  {
    RgbText(Quantize(c))
  }

  function RgbText(q: Rgb): (s: string)
    ensures Split(s, ' ') == [Decimal(q.r), Decimal(q.g), Decimal(q.b)]
    ensures '\n' !in s
  {
    var red, green, blue := Decimal(q.r), Decimal(q.g), Decimal(q.b);
    SplitThree(red, green, blue);
    red + " " + green + " " + blue
  }

  /** A decimal byte, as a reader of the PPM text takes it back. */
  function ParseChannel(s: string): (r: Option<u8>)
    ensures r.Some? ==> ParseDecimal(s) == Some(r.value as nat)
  {
    match ParseDecimal(s)
    case Some(n) => if n <= 255 then Some(n) else None
    case None => None
  }

  /** One pixel line of the PPM text, read back. */
  function ParseRgb(s: string): (r: Option<Rgb>)
    ensures r.Some? ==> |Split(s, ' ')| == 3
  {
    var parts := Split(s, ' ');
    if |parts| != 3 then None
    else match (ParseChannel(parts[0]), ParseChannel(parts[1]), ParseChannel(parts[2]))
      case (Some(red), Some(green), Some(blue)) => Some(Rgb(red, green, blue))
      case _ => None
  }

  /** The text of a colour reads back as its quantised bytes. */
  lemma ColorTextRoundTrip(c: Color)
    ensures ParseRgb(ColorText(c)) == Some(Quantize(c))
  {
    var q := Quantize(c);
    DecimalRoundTrip(q.r);
    DecimalRoundTrip(q.g);
    DecimalRoundTrip(q.b);
  }
}
