/** The layout arithmetic of the quote card (src/services/ImageService.ts:55-108).
    Fonts, the bitmap, the PNG encoder and the file system are not modelled; what is
    left is where each piece of text is drawn. The `1.4` line factors are exact reals
    here, where JavaScript uses binary floating point. */
module ImageService {
  import opened TextWrapper

  const WIDTH: real := 1080.0
  const HEIGHT: real := 1080.0
  const PADDING: real := 100.0
  const QUOTE_SIZE: real := 64.0
  const NAME_SIZE: real := 48.0
  const GAP: real := 60.0
  /** Line pitch of the quote block and height reserved for the name. */
  const LINE_HEIGHT: real := QUOTE_SIZE * 1.4
  const NAME_HEIGHT: real := NAME_SIZE * 1.4

  /** One `ctx.fillText(text, x, y)` call; `y` is the baseline. */
  datatype Draw = Draw(text: string, x: real, y: real)

  /** The vertical layout of a card: the block height, its top, and the draws. */
  datatype Card = Card(total: real, startY: real, draws: seq<Draw>)

  /** The options the card passes to the wrapper (lines 74-77). */
  function CardWrapOptions(): (o: WrapOptions)
    ensures o.maxWidth == WIDTH - 2.0 * PADDING == 880.0
    ensures o.lineHeight == 89.6
  {
    WrapOptions(WIDTH - PADDING * 2.0, QUOTE_SIZE * 1.4)
  }

  /** The signature line under the quote (line 107). */
  function NameText(brandName: string): (s: string)
    ensures |s| == |brandName| + 2 && s[..2] == "\U{2014} " && s[2..] == brandName
  {
    "\U{2014} " + brandName
  }

  /** The layout of lines 79-108 for already wrapped `lines`. */
  function LayoutLines(lines: seq<string>, brandName: string): (c: Card)
    ensures c.total == |lines| as real * LINE_HEIGHT + GAP + NAME_HEIGHT
    ensures c.startY + c.total + c.startY == HEIGHT
    ensures |c.draws| == |lines| + 1
    ensures forall i :: 0 <= i < |c.draws| ==> c.draws[i].x == WIDTH / 2.0
    ensures forall i :: 0 <= i < |lines| ==> c.draws[i].text == lines[i]
    ensures c.draws[|lines|].text == NameText(brandName)
    ensures |lines| > 0 ==> c.draws[0].y == c.startY + QUOTE_SIZE
    ensures forall i :: 0 <= i < |lines| - 1 ==> c.draws[i + 1].y - c.draws[i].y == LINE_HEIGHT
    ensures |lines| > 0 ==> c.draws[|lines|].y - c.draws[|lines| - 1].y == LINE_HEIGHT + GAP + NAME_SIZE - QUOTE_SIZE
    ensures c.draws[|lines|].y == c.startY + |lines| as real * LINE_HEIGHT + GAP + NAME_SIZE
  {
    var quoteHeight := |lines| as real * LINE_HEIGHT;
    var total := quoteHeight + GAP + NAME_HEIGHT;
    var startY := (HEIGHT - total) / 2.0;
    var quoteDraws := seq(|lines|, i requires 0 <= i < |lines| =>
                          Draw(lines[i], WIDTH / 2.0, startY + i as real * LINE_HEIGHT + QUOTE_SIZE));
    var nameDraw := Draw(NameText(brandName), WIDTH / 2.0, startY + quoteHeight + GAP + NAME_SIZE);
    Card(total, startY, quoteDraws + [nameDraw])
  }

  /** `generateQuoteCard(data)` up to its file: wrap with the card's options, then lay out. */
  function GenerateQuoteCard(measure: string -> real, quote: string, brandName: string): (c: Card)
    ensures var lines := WrapText(measure, quote, CardWrapOptions()).lines;
      && |c.draws| == |lines| + 1
      && (forall i :: 0 <= i < |lines| ==> c.draws[i].text == lines[i])
      && c.draws[|lines|].text == NameText(brandName)
      && c.total == WrapText(measure, quote, CardWrapOptions()).totalHeight + GAP + NAME_HEIGHT
      && (|lines| > 0 ==> c.draws[0].y == c.startY + QUOTE_SIZE)
      && (forall i :: 0 <= i < |lines| - 1 ==> c.draws[i + 1].y - c.draws[i].y == LINE_HEIGHT)
      && c.draws[|lines|].y == c.startY + |lines| as real * LINE_HEIGHT + GAP + NAME_SIZE
    ensures forall i :: 0 <= i < |c.draws| ==> c.draws[i].x == WIDTH / 2.0
    ensures c.startY + c.total + c.startY == HEIGHT
  {
    LayoutLines(WrapText(measure, quote, CardWrapOptions()).lines, brandName)
  }

  /** On a generated card the signature is the last draw, below every wrapped line of
      the quote. */
  lemma SignatureBelowQuote(measure: string -> real, quote: string, brandName: string, i: nat)
    requires i < |WrapText(measure, quote, CardWrapOptions()).lines|
    ensures var lines := WrapText(measure, quote, CardWrapOptions()).lines;
      var c := GenerateQuoteCard(measure, quote, brandName);
      && c.draws[|lines|].text == NameText(brandName)
      && c.draws[i].y < c.draws[|lines|].y
  {
    var lines := WrapText(measure, quote, CardWrapOptions()).lines;
    BaselinesIncrease(lines, brandName, i, |lines|);
  }

  /** Baselines rise strictly and the name sits below every quote line. */
  lemma BaselinesIncrease(lines: seq<string>, brandName: string, i: nat, j: nat)
    requires i < j <= |lines|
    ensures LayoutLines(lines, brandName).draws[i].y < LayoutLines(lines, brandName).draws[j].y
  {
    var c := LayoutLines(lines, brandName);
    if j < |lines| {
      assert c.draws[i].y == c.startY + i as real * LINE_HEIGHT + QUOTE_SIZE;
      assert c.draws[j].y == c.startY + j as real * LINE_HEIGHT + QUOTE_SIZE;
    } else {
      assert c.draws[i].y == c.startY + i as real * LINE_HEIGHT + QUOTE_SIZE;
    }
  }

  /** Nothing clamps the top: the block starts on the card exactly when at most ten
      lines are wrapped, and above the card's top edge from eleven lines on. */
  lemma StartOnCardIffAtMostTenLines(lines: seq<string>, brandName: string)
    ensures LayoutLines(lines, brandName).startY >= 0.0 <==> |lines| <= 10
    ensures |lines| >= 11 ==> LayoutLines(lines, brandName).startY < 0.0
  {
    var n := |lines| as real;
    if |lines| <= 10 {
      assert n * LINE_HEIGHT <= 896.0;
    } else {
      assert n * LINE_HEIGHT >= 985.6;
    }
  }

  /** A one-line quote: the line's baseline and the name's, for the card's constants. */
  lemma OneLineCard(line: string, brandName: string)
    ensures LayoutLines([line], brandName).startY == 431.6
    ensures LayoutLines([line], brandName).draws ==
      [Draw(line, 540.0, 495.6), Draw(NameText(brandName), 540.0, 629.2)]
  {
  }
}
