/**
  The image renderer (`src/image-generator.ts`): the canvas is modelled as a
  context object whose drawing state (fill and stroke style, font, alignment,
  line width) the drawing steps update in place, and which records every draw
  call as a command carrying the style it was drawn with. Pixels, fonts as
  glyphs, PNG encoding and the file write are not modelled.
*/
module ImageGenerator {
  import opened Wrappers
  import opened JsText

  const CanvasWidth := 800
  const CanvasHeight := 600
  const Padding := 40
  const LineHeight := 24
  const FontSize := 16
  const TitleFontSize := 20
  const HeaderColor := "#2c3e50"
  const TextColor := "#34495e"
  const BackgroundColor := "#ffffff"
  const BorderColor := "#bdc3c7"
  const EmptyColor := "#e74c3c"
  const FooterColor := "#95a5a6"

  const TextFont := "16px Arial, sans-serif"
  const BoldFont := "bold 16px Arial, sans-serif"
  const TitleFont := "bold 20px Arial, sans-serif"
  const EmptyFont := "18px Arial, sans-serif"
  const FooterFont := "12px Arial, sans-serif"

  /** The list's top line: below the title. */
  const StartY := Padding + TitleFontSize + 40
  const ColumnsPerRow := 3
  const ColumnWidth := (CanvasWidth - 2 * Padding) / ColumnsPerRow
  /** An item below this line is not drawn. */
  const ListBottom := CanvasHeight - Padding - 60
  /** The total line is never placed below this line. */
  const TotalBottom := CanvasHeight - Padding - 40

  const EmptyMessage := "暂无空教室"
  const ListHeader := "空教室列表:"
  const Ellipsis := "..."
  const FooterPrefix := "数据来源: 东北大学秦皇岛分校教务系统 | 生成时间: "

  datatype Align = Start | Left | Center

  /** The drawing state a text is drawn with. */
  datatype Style = Style(fill: string, font: string, align: Align)

  datatype Command =
    | FillRect(x: int, y: int, width: int, height: int, fill: string)
    | FillText(text: string, x: int, y: int, style: Style)
    | StrokeRect(x: int, y: int, width: int, height: int, stroke: string, lineWidth: int)

  /** A 2D drawing context: its current state and the draw calls made on it so far. */
  class Context {
    var fillStyle: string
    var strokeStyle: string
    var font: string
    var textAlign: Align
    var lineWidth: int
    var commands: seq<Command>

    /** A fresh canvas context, in the canvas defaults. */
    constructor ()
      ensures fillStyle == "#000000" && strokeStyle == "#000000" && font == "10px sans-serif"
      ensures textAlign == Start && lineWidth == 1 && commands == []
    {
      fillStyle := "#000000";
      strokeStyle := "#000000";
      font := "10px sans-serif";
      textAlign := Start;
      lineWidth := 1;
      commands := [];
    }

    function TextStyle(): Style
      reads this
    {
      Style(fillStyle, font, textAlign)
    }

    /** `fillText(text, x, y)`: draws with the current fill style, font and alignment. */
    method FillTextAt(text: string, x: int, y: int)
      modifies this
      ensures commands == old(commands) + [FillText(text, x, y, old(TextStyle()))]
      ensures fillStyle == old(fillStyle) && strokeStyle == old(strokeStyle) && font == old(font)
      ensures textAlign == old(textAlign) && lineWidth == old(lineWidth)
    {
      commands := commands + [FillText(text, x, y, TextStyle())];
    }

    /** Sets the fill style, font and alignment together. */
    method SetTextStyle(style: Style)
      modifies this
      ensures TextStyle() == style
      ensures strokeStyle == old(strokeStyle) && lineWidth == old(lineWidth) && commands == old(commands)
    {
      fillStyle := style.fill;
      font := style.font;
      textAlign := style.align;
    }
  }

  // ---------------------------------------------------------------------------
  // Layout of the list
  // ---------------------------------------------------------------------------

  function Column(index: nat): nat
  {
    index % ColumnsPerRow
  }

  function Row(index: nat): nat
  {
    index / ColumnsPerRow
  }

  function ItemX(index: nat): int
  {
    Padding + Column(index) * ColumnWidth
  }

  function ItemY(index: nat): int
  {
    StartY + 40 + Row(index) * LineHeight
  }

  /** Item `k` sits in column `k mod 3` of row `k div 3`, at x = 40 + 240 * column and y = 140 + 24 * row. */
  lemma Placement(index: nat)
    ensures Column(index) < 3 && index == 3 * Row(index) + Column(index)
    ensures ItemX(index) == 40 + 240 * Column(index) && ItemY(index) == 140 + 24 * Row(index)
    ensures ItemX(index) in {40, 280, 520}
  {
  }

  /** No two items are placed at the same point. */
  lemma PlacementIsInjective(i: nat, j: nat)
    requires i != j
    ensures ItemX(i) != ItemX(j) || ItemY(i) != ItemY(j)
  {
  }

  /** An item is drawn exactly when it is among the first 48 (sixteen rows of three). */
  lemma DrawnIffAmongFirst48(index: nat)
    ensures ItemY(index) <= ListBottom <==> index < 48
  {
  }

  /** Every drawn item lies inside the canvas, below the header line. */
  lemma DrawnItemsInsideCanvas(index: nat)
    requires index < 48
    ensures 0 < ItemX(index) < CanvasWidth && StartY < ItemY(index) <= ListBottom < CanvasHeight
  {
  }

  /** `Math.ceil(n / 3)` for a count `n`. */
  function RowsNeeded(n: nat): (rows: nat)
    ensures 3 * rows >= n && 3 * (rows - 1) < n
  {
    (n + ColumnsPerRow - 1) / ColumnsPerRow
  }

  /** The y of the total line: one gap below the last row, clamped to 520. */
  function TotalY(n: nat): (y: int)
    ensures y <= TotalBottom
    ensures y == TotalBottom || y == StartY + 40 + RowsNeeded(n) * LineHeight + 20
    ensures y == if 160 + 24 * RowsNeeded(n) < 520 then 160 + 24 * RowsNeeded(n) else 520
  {
    var unclamped := StartY + 40 + RowsNeeded(n) * LineHeight + 20;
    if unclamped < TotalBottom then unclamped else TotalBottom
  }

  /** The total line lies at least 20 below every drawn item of the list. */
  lemma TotalLineBelowItems(n: nat, index: nat)
    requires index < n && index < 48
    ensures TotalY(n) >= ItemY(index) + 20
  {
    assert Row(index) < RowsNeeded(n);
  }

  // ---------------------------------------------------------------------------
  // The commands of `drawClassroomList`
  // ---------------------------------------------------------------------------

  const ItemStyle := Style(TextColor, TextFont, Left)
  const HeaderStyle := Style(HeaderColor, BoldFont, Left)
  const EmptyStyle := Style(EmptyColor, EmptyFont, Center)

  /** What the `forEach` callback draws for item `k`: the bullet, the ellipsis, or nothing. */
  function ItemCommands(names: seq<string>, k: nat): seq<Command>
    requires k < |names|
  {
    if ItemY(k) > ListBottom then
      if k == |names| - 1 then [FillText(Ellipsis, ItemX(k), ItemY(k) - LineHeight, ItemStyle)] else []
    else [FillText("• " + names[k], ItemX(k), ItemY(k), ItemStyle)]
  }

  /** The commands of the first `n` callbacks. */
  function ItemsCommands(names: seq<string>, n: nat): seq<Command>
    requires n <= |names|
  {
    if n == 0 then [] else ItemsCommands(names, n - 1) + ItemCommands(names, n - 1)
  }

  function BulletCommand(names: seq<string>, k: nat): Command
    requires k < |names|
  {
    FillText("• " + names[k], ItemX(k), ItemY(k), ItemStyle)
  }

  function TotalText(n: nat): string
  {
    "共找到 " + IntToString(n) + " 间空教室"
  }

  /** Everything `drawClassroomList` draws. */
  function ListCommands(names: seq<string>): (r: seq<Command>)
    ensures r != [] && (|r| == 1 <==> names == [])
    ensures names == [] ==> r[0].FillText? && r[0].text == EmptyMessage
    ensures names != [] ==> (r[0].FillText? && r[0].text == ListHeader
      && r[|r| - 1].FillText? && r[|r| - 1].text == TotalText(|names|) && r[|r| - 1].y == TotalY(|names|))
  {
    if |names| == 0 then [FillText(EmptyMessage, CanvasWidth / 2, StartY + 50, EmptyStyle)]
    else
      [FillText(ListHeader, Padding, StartY, HeaderStyle)]
      + ItemsCommands(names, |names|)
      + [FillText(TotalText(|names|), Padding, TotalY(|names|), HeaderStyle)]
  }

  /** The first `n` callbacks, up to the 48th, draw one bullet each, in index order. */
  lemma {:induction false} ItemsDrawn(names: seq<string>, n: nat)
    requires n <= |names| && n <= 48
    ensures |ItemsCommands(names, n)| == n
    ensures forall k :: 0 <= k < n ==> ItemsCommands(names, n)[k] == BulletCommand(names, k)
  {
    if n > 0 {
      ItemsDrawn(names, n - 1);
      DrawnIffAmongFirst48(n - 1);
    }
  }

  /** The callbacks after the 48th draw nothing, except the last one. */
  lemma {:induction false} ItemsSkipped(names: seq<string>, n: nat)
    requires 48 <= n < |names|
    ensures ItemsCommands(names, n) == ItemsCommands(names, 48)
  {
    if n > 48 {
      ItemsSkipped(names, n - 1);
      DrawnIffAmongFirst48(n - 1);
    }
  }

  /**
    The callbacks of a list of `n` items draw the first 48 items as bullets in
    index order, then, when items were cut off, the ellipsis at the last item's x
    one line above its y.
  */
  lemma ItemsCommandsShape(names: seq<string>)
    ensures var items := ItemsCommands(names, |names|);
      var n := |names|;
      var drawn := if n < 48 then n else 48;
      && |items| == drawn + (if n > 48 then 1 else 0)
      && (forall k :: 0 <= k < drawn ==> items[k] == BulletCommand(names, k))
      && (n > 48 ==> items[48] == FillText(Ellipsis, ItemX(n - 1), ItemY(n - 1) - 24, ItemStyle))
  {
    var n := |names|;
    if n <= 48 {
      ItemsDrawn(names, n);
    } else {
      ItemsSkipped(names, n - 1);
      ItemsDrawn(names, 48);
      DrawnIffAmongFirst48(n - 1);
      assert ItemsCommands(names, n) == ItemsCommands(names, 48) + ItemCommands(names, n - 1);
    }
  }

  /**
    The commands of a non-empty list: the header at (40, 100), the first 48
    items as bullets in index order at their places, then, when items were cut
    off, the ellipsis at the last item's x one line above its y, and last the
    total line at (40, `TotalY(n)`).
  */
  lemma ListCommandsShape(names: seq<string>)
    requires |names| > 0
    ensures var cmds := ListCommands(names);
      var n := |names|;
      var drawn := if n < 48 then n else 48;
      && |cmds| == drawn + (if n > 48 then 1 else 0) + 2
      && cmds[0] == FillText(ListHeader, 40, 100, HeaderStyle)
      && (forall k :: 0 <= k < drawn ==> cmds[1 + k] == BulletCommand(names, k))
      && (n > 48 ==> cmds[1 + 48] == FillText(Ellipsis, ItemX(n - 1), ItemY(n - 1) - 24, ItemStyle))
      && cmds[|cmds| - 1] == FillText(TotalText(n), 40, TotalY(n), HeaderStyle)
  {
    var n := |names|;
    var items := ItemsCommands(names, n);
    var header := FillText(ListHeader, Padding, StartY, HeaderStyle);
    var total := FillText(TotalText(n), Padding, TotalY(n), HeaderStyle);
    var cmds := ListCommands(names);
    assert cmds == [header] + items + [total];
    ItemsCommandsShape(names);
    assert |cmds| == |items| + 2 && cmds[0] == header && cmds[|cmds| - 1] == total;
    forall k | 0 <= k < |items| ensures cmds[1 + k] == items[k] {
      assert cmds[1 + k] == ([header] + items)[1 + k];
    }
  }

  /** An empty list draws only the centred message, without header or total line. */
  lemma EmptyListShape()
    ensures ListCommands([]) == [FillText("暂无空教室", 400, 150, Style("#e74c3c", "18px Arial, sans-serif", Center))]
  {
  }

  /**
    The ellipsis is placed one line above the last item: for 49 to 51
    items that is exactly where item 45, 46 or 47 was drawn, and from 64 items on
    it falls below the bottom of the canvas.
  */
  lemma EllipsisPlacement(n: nat)
    requires n > 48
    ensures 49 <= n <= 51 ==>
      ItemX(n - 1) == ItemX(n - 4) && ItemY(n - 1) - LineHeight == ItemY(n - 4) && n - 4 < 48
    ensures n >= 64 ==> ItemY(n - 1) - LineHeight > CanvasHeight
  {
  }

  /** The `forEach` callback for item `index`: its bullet, the ellipsis, or nothing. */
  method DrawItem(ctx: Context, names: seq<string>, index: nat)
    requires index < |names| && ctx.TextStyle() == ItemStyle
    modifies ctx
    ensures ctx.commands == old(ctx.commands) + ItemCommands(names, index)
    ensures ctx.TextStyle() == old(ctx.TextStyle())
    ensures ctx.strokeStyle == old(ctx.strokeStyle) && ctx.lineWidth == old(ctx.lineWidth)
  {
    var row := index / ColumnsPerRow;
    var col := index % ColumnsPerRow;
    var x := Padding + col * ColumnWidth;
    var y := StartY + 40 + row * LineHeight;
    assert x == ItemX(index) && y == ItemY(index);
    if y > ListBottom {
      if index == |names| - 1 {
        ctx.FillTextAt(Ellipsis, x, y - LineHeight);
      }
      return;
    }
    ctx.FillTextAt("• " + names[index], x, y);
  }

  /** `classroomData.forEach(...)`, drawn in the item style: the callbacks' commands, in index order. */
  method DrawItems(ctx: Context, names: seq<string>)
    requires ctx.TextStyle() == ItemStyle
    modifies ctx
    ensures ctx.commands == old(ctx.commands) + ItemsCommands(names, |names|)
    ensures ctx.TextStyle() == old(ctx.TextStyle())
    ensures ctx.strokeStyle == old(ctx.strokeStyle) && ctx.lineWidth == old(ctx.lineWidth)
  {
    var index := 0;
    while index < |names|
      invariant 0 <= index <= |names|
      invariant ctx.commands == old(ctx.commands) + ItemsCommands(names, index)
      invariant ctx.TextStyle() == old(ctx.TextStyle())
      invariant ctx.strokeStyle == old(ctx.strokeStyle) && ctx.lineWidth == old(ctx.lineWidth)
    {
      DrawItem(ctx, names, index);
      index := index + 1;
    }
  }

  /**
    `drawClassroomList(ctx, classroomData)`: sets the item style, then draws the
    empty message, or the header, the items of the `forEach` and the total line.
  */
  method DrawClassroomList(ctx: Context, names: seq<string>)
    modifies ctx
    ensures ctx.commands == old(ctx.commands) + ListCommands(names)
    ensures ctx.TextStyle() == (if names == [] then EmptyStyle else HeaderStyle)
    ensures ctx.strokeStyle == old(ctx.strokeStyle) && ctx.lineWidth == old(ctx.lineWidth)
  {
    ctx.SetTextStyle(ItemStyle);
    if |names| == 0 {
      ctx.SetTextStyle(EmptyStyle);
      ctx.FillTextAt(EmptyMessage, CanvasWidth / 2, StartY + 50);
      return;
    }
    ghost var start := ctx.commands;
    ghost var header := FillText(ListHeader, Padding, StartY, HeaderStyle);
    ctx.SetTextStyle(HeaderStyle);
    ctx.FillTextAt(ListHeader, Padding, StartY);
    ctx.SetTextStyle(ItemStyle);
    DrawItems(ctx, names);
    ghost var items := ItemsCommands(names, |names|);
    assert ctx.commands == start + [header] + items;
    var totalY := TotalY(|names|);
    ctx.SetTextStyle(HeaderStyle);
    ctx.FillTextAt(TotalText(|names|), Padding, totalY);
    assert ctx.commands == start + ([header] + items + [FillText(TotalText(|names|), Padding, totalY, HeaderStyle)]);
  }

  // ---------------------------------------------------------------------------
  // The other drawing steps and `generateImage`
  // ---------------------------------------------------------------------------

  const TitlePrefix := "工学馆空教室查询 - "

  /** The title: `工学馆空教室查询 - ${date} 第${period}节`. */
  function Title(date: string, period: int): (t: string)
    ensures TitlePrefix + date + " 第" <= t && t[|t| - 1] == '节'
    ensures |t| == |TitlePrefix| + |date| + 2 + |IntToString(period)| + 1
  {
    TitlePrefix + date + " 第" + IntToString(period) + "节"
  }

  /** The title holds the date and the period's numeral, and the numeral reads back as the period. */
  lemma TitleShape(date: string, period: int)
    ensures var t := Title(date, period);
      var d := |TitlePrefix|;
      var p := d + |date| + 2;
      && |t| == p + |IntToString(period)| + 1
      && t[..d] == TitlePrefix
      && t[d..d + |date|] == date
      && t[d + |date|..p] == " 第"
      && ParseInt(t[p..|t| - 1]) == Some(period)
      && t[|t| - 1] == '节'
  {
    var t := Title(date, period);
    var d := |TitlePrefix|;
    var p := d + |date| + 2;
    var t1 := TitlePrefix + date;
    var t2 := t1 + " 第";
    var t3 := t2 + IntToString(period);
    assert t == t3 + "节";
    assert t[..|t3|] == t3;
    assert t3[..|t2|] == t2 && t3[|t2|..] == IntToString(period);
    assert t2[..|t1|] == t1 && t2[|t1|..] == " 第";
    assert t1[..d] == TitlePrefix && t1[d..] == date;
    assert t[..d] == t1[..d];
    assert t[d..d + |date|] == t1[d..];
    assert t[d + |date|..p] == t2[|t1|..];
    assert t[p..|t| - 1] == t3[|t2|..];
    ParseIntOfIntToString(period);
  }

  const TitleStyle := Style(HeaderColor, TitleFont, Center)

  /** `drawTitle(ctx, date, period)`: the title centred at (400, 60). */
  method DrawTitle(ctx: Context, date: string, period: int)
    modifies ctx
    ensures ctx.commands == old(ctx.commands) + [FillText(Title(date, period), 400, 60, TitleStyle)]
    ensures ctx.TextStyle() == TitleStyle
    ensures ctx.strokeStyle == old(ctx.strokeStyle) && ctx.lineWidth == old(ctx.lineWidth)
  {
    ctx.SetTextStyle(TitleStyle);
    ctx.FillTextAt(Title(date, period), CanvasWidth / 2, Padding + TitleFontSize);
  }

  /** `drawBorder(ctx)`: a 2-pixel frame 10 pixels inside the canvas edge. */
  method DrawBorder(ctx: Context)
    modifies ctx
    ensures ctx.commands == old(ctx.commands) + [StrokeRect(10, 10, 780, 580, BorderColor, 2)]
    ensures ctx.strokeStyle == BorderColor && ctx.lineWidth == 2 && ctx.TextStyle() == old(ctx.TextStyle())
  {
    ctx.strokeStyle := BorderColor;
    ctx.lineWidth := 2;
    ctx.commands := ctx.commands + [StrokeRect(10, 10, CanvasWidth - 20, CanvasHeight - 20, ctx.strokeStyle, ctx.lineWidth)];
  }

  const FooterStyle := Style(FooterColor, FooterFont, Center)

  /** `drawFooter(ctx)`; `now` is the local time string the source takes from the clock. */
  method DrawFooter(ctx: Context, now: string)
    modifies ctx
    ensures ctx.commands == old(ctx.commands) + [FillText(FooterPrefix + now, 400, 580, FooterStyle)]
    ensures ctx.TextStyle() == FooterStyle
    ensures ctx.strokeStyle == old(ctx.strokeStyle) && ctx.lineWidth == old(ctx.lineWidth)
  {
    ctx.SetTextStyle(FooterStyle);
    ctx.FillTextAt(FooterPrefix + now, CanvasWidth / 2, CanvasHeight - 20);
  }

  /** Every draw call of `generateImage`, in order. */
  function ImageCommands(names: seq<string>, date: string, period: int, now: string): seq<Command>
  {
    [FillRect(0, 0, CanvasWidth, CanvasHeight, BackgroundColor),
     FillText(Title(date, period), 400, 60, TitleStyle)]
    + ListCommands(names)
    + [StrokeRect(10, 10, 780, 580, BorderColor, 2),
       FillText(FooterPrefix + now, 400, 580, FooterStyle)]
  }

  /**
    `generateImage(classroomData, filePath, date, period)` up to the PNG encoding:
    the background, the title, the list, the border and the footer, in that order.
  */
  method GenerateImage(names: seq<string>, date: string, period: int, now: string) returns (commands: seq<Command>)
    ensures commands == ImageCommands(names, date, period, now)
  {
    var ctx := new Context();
    ctx.fillStyle := BackgroundColor;
    ctx.commands := ctx.commands + [FillRect(0, 0, CanvasWidth, CanvasHeight, ctx.fillStyle)];
    ghost var head := [FillRect(0, 0, CanvasWidth, CanvasHeight, BackgroundColor),
                       FillText(Title(date, period), 400, 60, TitleStyle)];
    DrawTitle(ctx, date, period);
    assert ctx.commands == head;
    DrawClassroomList(ctx, names);
    ghost var body := head + ListCommands(names);
    assert ctx.commands == body;
    DrawBorder(ctx);
    DrawFooter(ctx, now);
    assert ctx.commands == body + [StrokeRect(10, 10, 780, 580, BorderColor, 2)] + [FillText(FooterPrefix + now, 400, 580, FooterStyle)];
    commands := ctx.commands;
  }

  /** The background comes first and the footer last; the list's commands sit between title and border. */
  lemma ImageCommandsFrame(names: seq<string>, date: string, period: int, now: string)
    ensures var cmds := ImageCommands(names, date, period, now);
      && |cmds| == |ListCommands(names)| + 4
      && cmds[0].FillRect? && cmds[0].width == CanvasWidth && cmds[0].height == CanvasHeight
      && cmds[1].FillText? && cmds[1].text == Title(date, period)
      && cmds[2..|cmds| - 2] == ListCommands(names)
      && cmds[|cmds| - 1].FillText? && cmds[|cmds| - 1].y == 580
  {
    var cmds := ImageCommands(names, date, period, now);
    assert cmds[2..|cmds| - 2] == ListCommands(names);
  }
}
