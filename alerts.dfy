/**
 * The status line above the charts and the tray icon: the threshold
 * ladders run on every tick, the status message and tray colour they
 * write, and the stylesheet and ellipsis handling used on resize.
 *
 * The state is last-writer-wins: each write replaces the message and the
 * colour, whatever the severity of what was shown before, and nothing
 * but an explicit clear or an empty message hides it.
 */
module Alerts {
  import opened Wrappers
  import Text
  import Decimal
  import Settings
  import Strings

  // ---------------------------------------------------------------------
  // Tray icon

  /** The tooltip the tray icon gets for an icon colour. */
  function TooltipFor(color: string): (t: string)
    ensures t == Strings.TrayTooltipNoAlerts <==> color == "green"
    ensures t == Strings.TrayTooltipWarning <==> color == "orange"
    ensures t == Strings.TrayTooltipAlert <==> color == "red"
  {
    if color == "green" then Strings.TrayTooltipNoAlerts
    else if color == "orange" then Strings.TrayTooltipWarning
    else if color == "red" then Strings.TrayTooltipAlert
    else Strings.TrayTooltipDefault
  }

  /** Any colour other than the three alert colours gets the default tooltip. */
  lemma OtherColorsDefault(color: string)
    requires color != "green" && color != "orange" && color != "red"
    ensures TooltipFor(color) == Strings.TrayTooltipDefault
  {
  }

  // ---------------------------------------------------------------------
  // Stylesheet

  /** The stylesheet of the status label before any message was shown. */
  const InitialStyle := "font-size: 14px; " + "font-weight: bold; " + "padding: 5px;"

  /** The part of the message stylesheet in front of the colour. */
  const StylePrefix := InitialStyle + " "

  /** The stylesheet a message in `color` is shown with. */
  function StyleFor(color: string): (style: string)
    ensures |StylePrefix| <= |style| && style[..|StylePrefix|] == StylePrefix
    ensures Text.EndsWith(style, "color: " + color + ";")
  {
    var style := StylePrefix + "color: " + color + ";";
    assert style == StylePrefix + ("color: " + color + ";");
    style
  }

  /**
   * `style.split('color: ')[1].split(';')[0]`: None where Python raises
   * IndexError because the stylesheet names no colour.
   */
  function ColorOf(style: string): (r: Option<string>)
    ensures r.None? <==> !Text.Contains(style, "color: ")
    ensures r.Some? ==> !Text.Contains(r.value, ";")
  {
    var parts := Text.Split(style, "color: ");
    Text.SplitMore(style, "color: ");
    if |parts| > 1 then
      Text.SplitPiecesFree(parts[1], ";");
      Some(Text.Split(parts[1], ";")[0])
    else None
  }

  /** A colour name that the stylesheet round trip gives back unchanged. */
  predicate PlainColor(color: string) {
    ':' !in color && ';' !in color
  }

  /** Reading the colour back out of a message stylesheet gives the colour it was built with. */
  lemma ColorRoundTrip(color: string)
    requires PlainColor(color)
    ensures ColorOf(StyleFor(color)) == Some(color)
  {
    var tail := color + ";";
    StyleSplit(tail);
    assert StyleFor(color) == StylePrefix + "color: " + tail;
    Text.AbsentChar(tail, "color: ", ':');
    assert tail == color + ";" + "";
    Text.FirstAfter(color, ";", "");
  }

  /** A colour holding `;` comes back cut at the first `;`. */
  lemma ColorCutAtSemicolon(a: string, b: string)
    requires PlainColor(a) && ':' !in b
    ensures ColorOf(StyleFor(a + ";" + b)) == Some(a)
  {
    var tail := a + ";" + (b + ";");
    StyleSplit(tail);
    assert StyleFor(a + ";" + b) == StylePrefix + "color: " + tail;
    Text.AbsentChar(tail, "color: ", ':');
    Text.FirstAfter(a, ";", b + ";");
  }

  /** The prefix of a message stylesheet holds no `color: ` of its own. */
  lemma StyleSplit(tail: string)
    ensures Text.Split(StylePrefix + "color: " + tail, "color: ") == [StylePrefix] + Text.Split(tail, "color: ")
  {
    StylesLackC();
    Text.FirstAfter(StylePrefix, "color: ", tail);
  }

  /** Neither stylesheet text before the colour holds a `c`. */
  lemma StylesLackC()
    ensures 'c' !in StylePrefix && 'c' !in InitialStyle
  {
    SizeWeightLackC();
    assert 'c' !in "padding: 5px;" + " ";
  }

  lemma SizeWeightLackC()
    ensures 'c' !in "font-size: 14px; " + "font-weight: bold; "
  {
  }

  /** The stylesheet of the label before the first message names no colour. */
  lemma InitialStyleHasNoColor()
    ensures ColorOf(InitialStyle).None?
  {
    StylesLackC();
    Text.AbsentChar(InitialStyle, "color: ", 'c');
  }

  // ---------------------------------------------------------------------
  // Ellipsis

  /** `text.rstrip('...') + "..."`: every trailing point replaced by exactly three. */
  function NormalizeEllipsis(text: string): (r: string)
    ensures Text.EndsWith(r, "...")
    ensures Text.RStripChar(r, '.') == Text.RStripChar(text, '.')
    ensures |r| == |Text.RStripChar(text, '.')| + 3
  {
    var stem := Text.RStripChar(text, '.');
    assert "..." == seq(3, _ => '.');
    StripDotsAfterStem(stem, 3);
    stem + "..."
  }

  /** Stripping the points from a text that ends in points after a stem gives the stem. */
  lemma {:induction false} StripDotsAfterStem(stem: string, n: nat)
    requires stem == [] || stem[|stem| - 1] != '.'
    ensures Text.RStripChar(stem + seq(n, _ => '.'), '.') == stem
  {
    if n > 0 {
      var s := stem + seq(n, _ => '.');
      assert s[..|s| - 1] == stem + seq(n - 1, _ => '.');
      StripDotsAfterStem(stem, n - 1);
    } else {
      assert stem + seq(n, _ => '.') == stem;
    }
  }

  /**
   * The normalised text ends with an ellipsis, keeps the text before the
   * trailing points, and normalising twice changes nothing.
   */
  lemma NormalizeEllipsisFacts(text: string)
    ensures Text.EndsWith(NormalizeEllipsis(text), "...")
    ensures Text.RStripChar(NormalizeEllipsis(text), '.') == Text.RStripChar(text, '.')
    ensures |NormalizeEllipsis(text)| == |Text.RStripChar(text, '.')| + 3
    ensures NormalizeEllipsis(NormalizeEllipsis(text)) == NormalizeEllipsis(text)
  {
  }

  // ---------------------------------------------------------------------
  // The status line

  /** What the status label and the tray icon show. */
  datatype StatusView = StatusView(visible: bool, text: string, style: string, trayColor: string, tooltip: string)

  /** The state at start-up: no message and a green icon. */
  const InitialView := StatusView(false, "", InitialStyle, "green", Strings.TrayTooltipNoAlerts)

  /**
   * set_status_message: an empty message only hides the label; any other
   * is shown, cut to the window by `elide`, in its colour, and the tray
   * icon takes that colour.
   */
  function SetStatus(v: StatusView, message: string, color: string, elide: string -> string): (r: StatusView)
    ensures message == [] ==> r == v.(visible := false)
    ensures message != [] ==> r.visible && r.text == elide(message) && r.trayColor == color
    ensures message != [] ==> r.tooltip == TooltipFor(color) && r.style == StyleFor(color)
  {
    if message == [] then v.(visible := false)
    else StatusView(true, elide(message), StyleFor(color), color, TooltipFor(color))
  }

  /** clear_status_message: the label is hidden and the tray icon turns green. */
  function ClearStatus(v: StatusView): (r: StatusView)
    ensures !r.visible && r.trayColor == "green" && r.tooltip == Strings.TrayTooltipNoAlerts
    ensures r.text == v.text && r.style == v.style
  {
    v.(visible := false, trayColor := "green", tooltip := TooltipFor("green"))
  }

  /**
   * What every reachable state satisfies: the tooltip matches the icon,
   * and a visible message carries a message stylesheet in the icon's colour.
   */
  predicate Consistent(v: StatusView) {
    && v.tooltip == TooltipFor(v.trayColor)
    && (v.visible ==> v.style == StyleFor(v.trayColor))
  }

  lemma InitialConsistent()
    ensures Consistent(InitialView)
  {
  }

  /** Every transition keeps a consistent state consistent. */
  lemma SetStatusConsistent(v: StatusView, message: string, color: string, elide: string -> string)
    requires Consistent(v)
    ensures Consistent(SetStatus(v, message, color, elide))
    ensures Consistent(ClearStatus(v))
  {
  }

  /** One call of set_status_message. */
  datatype StatusWrite = StatusWrite(message: string, color: string)

  /** The calls, in order. */
  function ApplyWrites(v: StatusView, writes: seq<StatusWrite>, elide: string -> string): StatusView
    decreases |writes|
  {
    if |writes| == 0 then v
    else ApplyWrites(SetStatus(v, writes[0].message, writes[0].color, elide), writes[1..], elide)
  }

  /** Applying two lists of writes is applying their concatenation. */
  lemma {:induction false} ApplyWritesAppend(v: StatusView, a: seq<StatusWrite>, b: seq<StatusWrite>, elide: string -> string)
    ensures ApplyWrites(ApplyWrites(v, a, elide), b, elide) == ApplyWrites(v, a + b, elide)
    decreases |a|
  {
    if |a| == 0 {
      assert a + b == b;
    } else {
      assert (a + b)[1..] == a[1..] + b;
      ApplyWritesAppend(SetStatus(v, a[0].message, a[0].color, elide), a[1..], b, elide);
    }
  }

  /** After a non-empty message, whatever was there before does not matter. */
  lemma {:induction false} LastWriteWins(v: StatusView, w: seq<StatusWrite>, last: StatusWrite, elide: string -> string)
    requires last.message != []
    ensures ApplyWrites(v, w + [last], elide) == SetStatus(InitialView, last.message, last.color, elide)
    decreases |w|
  {
    if |w| == 0 {
      assert w + [last] == [last];
    } else {
      assert (w + [last])[1..] == w[1..] + [last];
      LastWriteWins(SetStatus(v, w[0].message, w[0].color, elide), w[1..], last, elide);
    }
  }

  // ---------------------------------------------------------------------
  // The threshold ladders

  /** Memory in GB from the user's percentage of the machine's memory. */
  function MemoryGb(userMem: real, totalMemory: real): real {
    userMem / 100.0 * totalMemory / Settings.BytesPerGb
  }

  /** The memory limit in bytes. */
  const MemoryLimitBytes: real := Settings.MemoryLimitGb as real * Settings.BytesPerGb

  /** `min(100, limit / total * 100)`: the limit as a share of the machine's memory. */
  function MaxMemoryPercent(totalMemory: real): (p: real)
    requires totalMemory > 0.0
    ensures 0.0 < p <= 100.0
    ensures p == 100.0 <==> totalMemory <= MemoryLimitBytes
  {
    var share := MemoryLimitBytes / totalMemory * 100.0;
    assert share >= 100.0 <==> totalMemory <= MemoryLimitBytes by {
      assert share * totalMemory == MemoryLimitBytes * 100.0;
    }
    if 100.0 <= share then 100.0 else share
  }

  /** On a machine with more memory than the limit, the limit share is exactly the limit in GB. */
  lemma MaxMemoryPercentIsLimit(totalMemory: real)
    requires totalMemory > MemoryLimitBytes
    ensures MemoryGb(MaxMemoryPercent(totalMemory), totalMemory) == Settings.MemoryLimitGb as real
  {
    var p := MaxMemoryPercent(totalMemory);
    assert p == MemoryLimitBytes / totalMemory * 100.0;
    assert p * totalMemory == MemoryLimitBytes * 100.0;
    calc {
      MemoryGb(p, totalMemory);
      p / 100.0 * totalMemory / Settings.BytesPerGb;
      { assert p / 100.0 * totalMemory == p * totalMemory / 100.0; }
      MemoryLimitBytes / Settings.BytesPerGb;
      Settings.MemoryLimitGb as real;
    }
  }

  /** The memory ladder: red at or above the high threshold, else orange at or above the medium one. */
  function MemoryWrite(memoryGb: real, clock: string): (w: Option<StatusWrite>)
    ensures w.Some? <==> memoryGb >= Settings.MemoryMediumThreshold
    ensures w.Some? ==> w.value.color == (if memoryGb >= Settings.MemoryHighThreshold then "red" else "orange")
    ensures w.Some? ==> w.value.message == Strings.StatusMemory(clock, Decimal.IntText(Decimal.RoundHalfEven(memoryGb)))
  {
    var text := Strings.StatusMemory(clock, Decimal.IntText(Decimal.RoundHalfEven(memoryGb)));
    if memoryGb >= Settings.MemoryHighThreshold then Some(StatusWrite(text, "red"))
    else if memoryGb >= Settings.MemoryMediumThreshold then Some(StatusWrite(text, "orange"))
    else None
  }

  /** The CPU ladder. */
  function CpuWrite(userCpu: real, clock: string): (w: Option<StatusWrite>)
    ensures w.Some? <==> userCpu >= Settings.CpuMediumThreshold
    ensures w.Some? ==> w.value.color == (if userCpu >= Settings.CpuHighThreshold then "red" else "orange")
    ensures w.Some? ==> w.value.message == (if userCpu >= Settings.CpuHighThreshold then Strings.StatusCpuHigh(clock) else Strings.StatusCpuMedium(clock))
  {
    if userCpu >= Settings.CpuHighThreshold then Some(StatusWrite(Strings.StatusCpuHigh(clock), "red"))
    else if userCpu >= Settings.CpuMediumThreshold then Some(StatusWrite(Strings.StatusCpuMedium(clock), "orange"))
    else None
  }

  function Written(w: Option<StatusWrite>): seq<StatusWrite> {
    match w
    case None => []
    case Some(x) => [x]
  }

  /** The writes of one tick: the memory ladder, then the CPU ladder. */
  function TickWrites(userCpu: real, memoryGb: real, clock: string): (ws: seq<StatusWrite>)
    ensures |ws| <= 2
    ensures forall k :: 0 <= k < |ws| ==> ws[k].message != [] && (ws[k].color == "red" || ws[k].color == "orange")
  {
    Written(MemoryWrite(memoryGb, clock)) + Written(CpuWrite(userCpu, clock))
  }

  /** The status after one tick. */
  function TickStatus(v: StatusView, userCpu: real, memoryGb: real, clock: string, elide: string -> string): (r: StatusView)
    ensures v.visible ==> r.visible
    ensures Consistent(v) ==> Consistent(r)
  {
    var ws := TickWrites(userCpu, memoryGb, clock);
    var r := ApplyWrites(v, ws, elide);
    assert v.visible ==> r.visible by {
      if v.visible {
        WritesKeepVisible(v, ws, elide);
      }
    }
    assert Consistent(v) ==> Consistent(r) by {
      if Consistent(v) {
        WritesConsistent(v, ws, elide);
      }
    }
    r
  }

  /** The colour a ladder picks for a value: red at or above `high`, orange at or above `medium`. */
  function LadderColor(value: real, medium: real, high: real): Option<string> {
    if value >= high then Some("red") else if value >= medium then Some("orange") else None
  }

  function Rank(c: Option<string>): nat {
    if c == Some("red") then 2 else if c == Some("orange") then 1 else 0
  }

  /** Both ladders pick their colour by `LadderColor` on their own thresholds. */
  lemma LaddersPick(userCpu: real, memoryGb: real, clock: string)
    ensures (match MemoryWrite(memoryGb, clock) case None => None case Some(w) => Some(w.color))
      == LadderColor(memoryGb, Settings.MemoryMediumThreshold, Settings.MemoryHighThreshold)
    ensures (match CpuWrite(userCpu, clock) case None => None case Some(w) => Some(w.color))
      == LadderColor(userCpu, Settings.CpuMediumThreshold, Settings.CpuHighThreshold)
  {
  }

  /** A higher value never gets a lower severity. */
  lemma LadderMonotone(a: real, b: real, medium: real, high: real)
    requires medium <= high && a <= b
    ensures Rank(LadderColor(a, medium, high)) <= Rank(LadderColor(b, medium, high))
  {
  }

  /** A CPU alert replaces a memory alert written in the same tick. */
  lemma CpuOverridesMemory(v: StatusView, userCpu: real, memoryGb: real, clock: string, elide: string -> string)
    requires CpuWrite(userCpu, clock).Some?
    ensures var w := CpuWrite(userCpu, clock).value;
      && TickStatus(v, userCpu, memoryGb, clock, elide) == SetStatus(InitialView, w.message, w.color, elide)
      && TickStatus(v, userCpu, memoryGb, clock, elide).trayColor == (if userCpu >= Settings.CpuHighThreshold then "red" else "orange")
  {
    var w := CpuWrite(userCpu, clock).value;
    LastWriteWins(v, Written(MemoryWrite(memoryGb, clock)), w, elide);
  }

  /** A tick below both medium thresholds leaves the status exactly as it was. */
  lemma QuietTickKeepsStatus(v: StatusView, userCpu: real, memoryGb: real, clock: string, elide: string -> string)
    requires userCpu < Settings.CpuMediumThreshold && memoryGb < Settings.MemoryMediumThreshold
    ensures TickStatus(v, userCpu, memoryGb, clock, elide) == v
  {
  }

  /** A memory alert stands when the CPU is below its medium threshold. */
  lemma MemoryAlone(v: StatusView, userCpu: real, memoryGb: real, clock: string, elide: string -> string)
    requires userCpu < Settings.CpuMediumThreshold && memoryGb >= Settings.MemoryMediumThreshold
    ensures var r := TickStatus(v, userCpu, memoryGb, clock, elide);
      && r.visible
      && r.text == elide(Strings.StatusMemory(clock, Decimal.IntText(Decimal.RoundHalfEven(memoryGb))))
      && r.trayColor == (if memoryGb >= Settings.MemoryHighThreshold then "red" else "orange")
  {
    var w := MemoryWrite(memoryGb, clock).value;
    assert TickWrites(userCpu, memoryGb, clock) == [w];
    LastWriteWins(v, [], w, elide);
  }

  /** A red alert is replaced by an orange one: a lower severity is not held back. */
  lemma OrangeReplacesRed(v: StatusView, userCpu: real, memoryGb: real, clock: string, elide: string -> string)
    requires v.trayColor == "red"
    requires Settings.CpuMediumThreshold <= userCpu < Settings.CpuHighThreshold
    ensures TickStatus(v, userCpu, memoryGb, clock, elide).trayColor == "orange"
  {
    CpuOverridesMemory(v, userCpu, memoryGb, clock, elide);
  }

  /** A tick never hides a message that is shown. */
  lemma {:induction false} WritesKeepVisible(v: StatusView, ws: seq<StatusWrite>, elide: string -> string)
    requires v.visible
    requires forall k :: 0 <= k < |ws| ==> ws[k].message != []
    ensures ApplyWrites(v, ws, elide).visible
    decreases |ws|
  {
    if |ws| > 0 {
      WritesKeepVisible(SetStatus(v, ws[0].message, ws[0].color, elide), ws[1..], elide);
    }
  }

  lemma TickKeepsVisible(v: StatusView, userCpu: real, memoryGb: real, clock: string, elide: string -> string)
    requires v.visible
    ensures TickStatus(v, userCpu, memoryGb, clock, elide).visible
  {
    WritesKeepVisible(v, TickWrites(userCpu, memoryGb, clock), elide);
  }

  /** Writes of plain colours keep the state consistent. */
  lemma {:induction false} WritesConsistent(v: StatusView, ws: seq<StatusWrite>, elide: string -> string)
    requires Consistent(v)
    ensures Consistent(ApplyWrites(v, ws, elide))
    decreases |ws|
  {
    if |ws| > 0 {
      SetStatusConsistent(v, ws[0].message, ws[0].color, elide);
      WritesConsistent(SetStatus(v, ws[0].message, ws[0].color, elide), ws[1..], elide);
    }
  }

  // ---------------------------------------------------------------------
  // Resize

  /**
   * resizeEvent: a shown message that ends with an ellipsis is shown again
   * with its trailing points normalised, in the colour read back from its
   * stylesheet. None where Python raises because the stylesheet names no colour.
   */
  function ResizeStatus(v: StatusView, elide: string -> string): (r: Option<StatusView>)
    ensures r.None? <==> v.visible && Text.EndsWith(v.text, "...") && !Text.Contains(v.style, "color: ")
    ensures !(v.visible && Text.EndsWith(v.text, "...")) ==> r == Some(v)
    ensures r.Some? ==> r.value.visible == v.visible
  {
    if v.visible && Text.EndsWith(v.text, "...") then
      match ColorOf(v.style)
      case None => None
      case Some(c) => Some(SetStatus(v, NormalizeEllipsis(v.text), c, elide))
    else Some(v)
  }

  /**
   * In a consistent state with a plain colour, resizing never raises and
   * keeps the colour; a message without a trailing ellipsis is left alone.
   */
  lemma ResizeKeepsColor(v: StatusView, elide: string -> string)
    requires Consistent(v) && PlainColor(v.trayColor)
    ensures ResizeStatus(v, elide).Some?
    ensures ResizeStatus(v, elide).value.trayColor == v.trayColor
    ensures ResizeStatus(v, elide).value.visible == v.visible
    ensures Consistent(ResizeStatus(v, elide).value)
    ensures !(v.visible && Text.EndsWith(v.text, "...")) ==> ResizeStatus(v, elide) == Some(v)
    ensures v.visible && Text.EndsWith(v.text, "...") ==>
      ResizeStatus(v, elide).value.text == elide(NormalizeEllipsis(v.text))
  {
    if v.visible && Text.EndsWith(v.text, "...") {
      ColorRoundTrip(v.trayColor);
    }
  }
}
