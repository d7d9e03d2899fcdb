/** The PPM (`P3`) text the renderer builds in memory: a three-line header,
    then one line per pixel. */
module Writers {
  import opened Numeric
  import opened Text
  import opened Colors

  const MAX_COLOR: u8 := 255

  /** Each text followed by a line break, in order. */
  function Lines(ts: seq<string>): string {
    if ts == [] then []
    else Lines(ts[..|ts| - 1]) + ts[|ts| - 1] + "\n"
  }

  predicate NoLineBreaks(ts: seq<string>) {
    forall i :: 0 <= i < |ts| ==> '\n' !in ts[i]
  }

  /** `Lines` read from the front: the first text's line comes first. */
  lemma {:induction false} LinesCons(t: string, ts: seq<string>)
    ensures Lines([t] + ts) == t + "\n" + Lines(ts)
    decreases |ts|
  {
    if ts != [] {
      var n := |ts| - 1;
      assert ([t] + ts)[..n + 1] == [t] + ts[..n];
      LinesCons(t, ts[..n]);
    }
  }

  lemma {:induction false} LinesAppend(a: seq<string>, b: seq<string>)
    ensures Lines(a + b) == Lines(a) + Lines(b)
    decreases |b|
  {
    if b == [] {
      assert a + b == a;
    } else {
      var n := |b| - 1;
      assert (a + b)[..|a| + n] == a + b[..n];
      LinesAppend(a, b[..n]);
    }
  }

  /** Splitting lines of texts without line breaks at the line breaks gives the
      texts back, and an empty piece after the last break. */
  lemma {:induction false} SplitLines(ts: seq<string>)
    requires NoLineBreaks(ts)
    ensures Split(Lines(ts), '\n') == ts + [[]]
    decreases |ts|
  {
    if ts == [] {
      SplitWithoutSeparator([], '\n');
    } else {
      LinesCons(ts[0], ts[1..]);
      assert [ts[0]] + ts[1..] == ts;
      assert ts[0] + "\n" + Lines(ts[1..]) == ts[0] + ['\n'] + Lines(ts[1..]);
      SplitAfterPiece(ts[0], '\n', Lines(ts[1..]));
      SplitLines(ts[1..]);
    }
  }

  /** The three header lines: the magic number, the size, the largest channel value. */
  function HeaderLines(width: u32, height: u32): (ls: seq<string>)
    ensures NoLineBreaks(ls)
  {
    ["P3", Decimal(width) + " " + Decimal(height), Decimal(MAX_COLOR)]
  }

  /** The header: three lines, `"P3"`, `"<width> <height>"` and `"255"`. */
  function HeaderText(width: u32, height: u32): string {
    "P3" + "\n" + Decimal(width) + " " + Decimal(height) + "\n" + Decimal(MAX_COLOR) + "\n"
  }

  lemma LinesThree(a: string, b: string, c: string)
    ensures Lines([a, b, c]) == a + "\n" + b + "\n" + c + "\n"
  {
    assert [a, b, c][..2] == [a, b] && [a, b][..1] == [a] && [a][..0] == [];
    assert Lines([a]) == a + "\n";
    assert Lines([a, b]) == Lines([a]) + b + "\n";
    assert Lines([a, b, c]) == Lines([a, b]) + c + "\n";
  }

  /** The header is the lines of its three texts, and splits back into them. */
  lemma HeaderTextLines(width: u32, height: u32)
    ensures HeaderText(width, height) == Lines(HeaderLines(width, height))
    ensures Split(HeaderText(width, height), '\n') == ["P3", Decimal(width) + " " + Decimal(height), "255", ""]
  {
    var ls := HeaderLines(width, height);
    LinesThree(ls[0], ls[1], ls[2]);
    assert ls == [ls[0], ls[1], ls[2]];
    SplitLines(ls);
    MaxColorText();
  }

  lemma MaxColorText()
    ensures Decimal(MAX_COLOR) == "255"
  {
  }

  /** The text of each colour, in order. */
  function Texts(cs: seq<Color>): (ts: seq<string>)
    ensures |ts| == |cs| && NoLineBreaks(ts)
    ensures forall i :: 0 <= i < |cs| ==> ts[i] == ColorText(cs[i])
  {
    seq(|cs|, i requires 0 <= i < |cs| => ColorText(cs[i]))
  }

  /** The bytes of each colour, in order. */
  function Quantized(cs: seq<Color>): (qs: seq<Rgb>)
    ensures |qs| == |cs|
    ensures forall i :: 0 <= i < |cs| ==> qs[i] == Quantize(cs[i])
  {
    seq(|cs|, i requires 0 <= i < |cs| => Quantize(cs[i]))
  }

  /** The whole text after the header and the lines of the colours `cs`. */
  function Output(width: u32, height: u32, cs: seq<Color>): string {
    HeaderText(width, height) + Lines(Texts(cs))
  }

  /** One more colour adds one more line at the end. */
  lemma OutputGrows(width: u32, height: u32, cs: seq<Color>, c: Color)
    ensures Output(width, height, cs + [c]) == Output(width, height, cs) + ColorText(c) + "\n"
  {
    assert Texts(cs + [c])[..|cs|] == Texts(cs);
  }

  /** A picture read back from PPM text. */
  datatype Image = Image(width: nat, height: nat, maxColor: nat, pixels: seq<Rgb>)

  function ParsePixels(lines: seq<string>): (r: Option<seq<Rgb>>)
    ensures r.Some? ==> |r.value| == |lines|
  {
    if lines == [] then Some([])
    else match (ParseRgb(lines[0]), ParsePixels(lines[1..]))
      case (Some(px), Some(rest)) => Some([px] + rest)
      case _ => None
  }

  /** A reader of the text the writer produces: three header lines, the pixel
      lines, and a line break at the very end. */
  function Decode(s: string): (img: Option<Image>)
    ensures img.Some? ==> Split(s, '\n')[0] == "P3"
  {
    var lines := Split(s, '\n');
    if |lines| < 4 || lines[0] != "P3" || lines[|lines| - 1] != [] then None
    else
      var dims := Split(lines[1], ' ');
      if |dims| != 2 then None
      else match (ParseDecimal(dims[0]), ParseDecimal(dims[1]), ParseDecimal(lines[2]),
                  ParsePixels(lines[3..|lines| - 1]))
        case (Some(w), Some(h), Some(m), Some(px)) => Some(Image(w, h, m, px))
        case _ => None
  }

  lemma {:induction false} ParseTexts(cs: seq<Color>)
    ensures ParsePixels(Texts(cs)) == Some(Quantized(cs))
    decreases |cs|
  {
    if cs != [] {
      ColorTextRoundTrip(cs[0]);
      TextsTail(cs);
      ParseTexts(cs[1..]);
      ParseCons(Texts(cs), Quantize(cs[0]), Quantized(cs[1..]));
    }
  }

  lemma TextsTail(cs: seq<Color>)
    requires cs != []
    ensures Texts(cs)[0] == ColorText(cs[0]) && Texts(cs)[1..] == Texts(cs[1..])
    ensures Quantized(cs) == [Quantize(cs[0])] + Quantized(cs[1..])
  {
    assert Texts(cs)[1..] == Texts(cs[1..]);
    assert Quantized(cs) == [Quantize(cs[0])] + Quantized(cs[1..]);
  }

  lemma ParseCons(ts: seq<string>, px: Rgb, rest: seq<Rgb>)
    requires ts != [] && ParseRgb(ts[0]) == Some(px) && ParsePixels(ts[1..]) == Some(rest)
    ensures ParsePixels(ts) == Some([px] + rest)
  {
  }

  lemma SplitPair(a: string, b: string)
    requires ' ' !in a && ' ' !in b
    ensures Split(a + " " + b, ' ') == [a, b]
  {
    SplitWithoutSeparator(b, ' ');
    SplitAfterPiece(a, ' ', b);
  }

  /** Text whose lines are a header and pixel lines reads back as that
      header's image. */
  lemma DecodeLines(s: string, width: u32, height: u32, ts: seq<string>, qs: seq<Rgb>)
    requires Split(s, '\n') == HeaderLines(width, height) + ts + [[]]
    requires ParsePixels(ts) == Some(qs)
    ensures Decode(s) == Some(Image(width, height, 255, qs))
  {
    var lines := Split(s, '\n');
    assert lines[3..|lines| - 1] == ts;
    SplitPair(Decimal(width), Decimal(height));
    DecimalRoundTrip(width);
    DecimalRoundTrip(height);
    DecimalRoundTrip(MAX_COLOR);
  }

  /** The writer's text reads back as an image of the given size, maximum
      colour 255, and the quantised colours in order. */
  lemma DecodeOutput(width: u32, height: u32, cs: seq<Color>)
    ensures Decode(Output(width, height, cs)) == Some(Image(width, height, 255, Quantized(cs)))
  {
    var header := HeaderLines(width, height);
    var ts := Texts(cs);
    HeaderTextLines(width, height);
    LinesAppend(header, ts);
    assert NoLineBreaks(header + ts);
    SplitLines(header + ts);
    ParseTexts(cs);
    DecodeLines(Output(width, height, cs), width, height, ts, Quantized(cs));
  }

  /** The in-memory PPM text. */
  class Writer {
    var data: string

    /** `Writer::new`: the buffer starts with the header. */
    constructor (width: u32, height: u32)
      ensures data == HeaderText(width, height)
    {
      var header := Metadata(width, height);
      data := header;
    }

    /** `add`: one colour line appended; earlier text unchanged. */
    method Add(c: Color)
      modifies this
      ensures data == old(data) + ColorText(c) + "\n"
    {
      data := data + ColorText(c) + "\n";
    }

    /** `metadata`: the header built one line at a time. */
    static method Metadata(width: u32, height: u32) returns (buf: string)
      ensures buf == HeaderText(width, height)
      ensures Split(buf, '\n') == ["P3", Decimal(width) + " " + Decimal(height), "255", ""]
    {
      HeaderTextLines(width, height);
      buf := "";
      buf := buf + "P3" + "\n";
      buf := buf + Decimal(width) + " " + Decimal(height) + "\n";
      buf := buf + Decimal(MAX_COLOR) + "\n";
    }
  }
}
