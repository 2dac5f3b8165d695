/**
 * One appointment on the day grid: the eight colour schemes appointments cycle
 * through, the scheme chosen for a position, and the attributes the slot
 * renders (grid placement and the machine-readable start time).
 */
module AppointmentSlot {
  import opened Js

  /** The eight colours appointments cycle through. */
  datatype Color = Blue | Pink | Purple | Green | Yellow | Indigo | Red | Orange

  function ColorName(c: Color): string {
    match c
    case Blue => "blue"
    case Pink => "pink"
    case Purple => "purple"
    case Green => "green"
    case Yellow => "yellow"
    case Indigo => "indigo"
    case Red => "red"
    case Orange => "orange"
  }

  /** The Tailwind classes of one colour scheme. */
  datatype ColorScheme = ColorScheme(bg: string, hover: string, text: string, subtext: string, hoverSubtext: string)

  /** Every scheme uses the same shades of its colour. */
  function Scheme(c: Color): ColorScheme {
    var n := ColorName(c);
    ColorScheme("bg-" + n + "-50", "hover:bg-" + n + "-100", "text-" + n + "-700",
      "text-" + n + "-500", "group-hover:text-" + n + "-700")
  }

  /** `appointmentColorSchemes` (the day view keeps an identical local copy), by colour. */
  const Palette: seq<Color> := [Blue, Pink, Purple, Green, Yellow, Indigo, Red, Orange]

  /** `getColorScheme(index)`: the palette entry at `index % 8`. */
  function GetColorScheme(index: nat): (c: Color)
    ensures |Palette| == 8 && c == Palette[index % |Palette|]
  {
    Palette[index % |Palette|]
  }

  /** Positions eight apart get the same scheme. */
  lemma ColorSchemePeriodic(i: nat)
    ensures GetColorScheme(i + 8) == GetColorScheme(i)
  {
  }

  /** Text between a fixed prefix and a fixed suffix is determined by the whole. */
  lemma CancelAround(p: string, x: string, y: string, q: string)
    requires p + x + q == p + y + q
    ensures x == y
  {
    var w := p + x + q;
    assert |x| == |y|;
    assert w[|p|..|p| + |x|] == x;
    assert (p + y + q)[|p|..|p| + |y|] == y;
  }

  /** Different colours have different background classes. */
  lemma BackgroundsDistinct(c: Color, d: Color)
    requires c != d
    ensures Scheme(c).bg != Scheme(d).bg
  {
    var nc, nd := ColorName(c), ColorName(d);
    assert nc != nd;
    if Scheme(c).bg == Scheme(d).bg {
      CancelAround("bg-", nc, nd, "-50");
    }
  }

  /** The eight palette entries are eight different colours. */
  lemma PaletteDistinct(i: nat, j: nat)
    requires i < |Palette| && j < |Palette| && i != j
    ensures Palette[i] != Palette[j]
  {
  }

  /** Consecutive positions never share a background. */
  lemma AdjacentSchemesDiffer(i: nat)
    ensures Scheme(GetColorScheme(i)).bg != Scheme(GetColorScheme(i + 1)).bg
  {
    var a, b := i % 8, (i + 1) % 8;
    assert a != b;
    PaletteDistinct(a, b);
    BackgroundsDistinct(Palette[a], Palette[b]);
  }

  /** The props of an `AppointmentSlot`; absent optional props are `None`. */
  datatype SlotProps = SlotProps(
    id: string, title: string, startTime: string, date: Option<string>,
    gridRow: string, gridColumn: Option<int>, color: Color)

  /** What a slot renders: its grid placement, link classes, title and `<time>` element. */
  datatype SlotView = SlotView(
    gridRow: string, gridColumn: int, linkClass: string, title: string, dateTime: string, timeText: string)

  /** A template literal renders an absent value as "undefined". */
  function TemplateText(s: Option<string>): string {
    match s
    case Some(v) => v
    case None => "undefined"
  }

  /** The render of one slot. */
  function RenderSlot(p: SlotProps): (v: SlotView)
    ensures p.gridColumn.None? ==> v.gridColumn == 1
    ensures p.gridColumn.Some? ==> v.gridColumn == p.gridColumn.value
    ensures v.gridRow == p.gridRow && v.title == p.title && v.timeText == p.startTime
    ensures v.dateTime == TemplateText(p.date) + "T" + p.startTime
    ensures p.date.None? ==> v.dateTime == "undefinedT" + p.startTime
    ensures var bg := Scheme(p.color).bg; var hover := Scheme(p.color).hover;
      |v.linkClass| > |bg| + |hover| + 15 && v.linkClass[|v.linkClass| - |hover|..] == hover
      && v.linkClass[|v.linkClass| - |hover| - 15 - |bg|..|v.linkClass| - |hover| - 15] == bg
  {
    var column := match p.gridColumn case Some(c) => c case None => 1;
    var scheme := Scheme(p.color);
    var cls := "group absolute inset-1 flex flex-col overflow-y-auto rounded-lg " + scheme.bg
      + " p-2 text-xs/5 " + scheme.hover;
    SlotView(p.gridRow, column, cls, p.title, TemplateText(p.date) + "T" + p.startTime, p.startTime)
  }

  /** The `dateTime` attribute splits at 'T' back into the date and the start time. */
  lemma SlotDateTimeRoundTrip(p: SlotProps)
    requires p.date.Some? && 'T' !in p.date.value && 'T' !in p.startTime
    ensures Split(RenderSlot(p).dateTime, 'T') == [p.date.value, p.startTime]
  {
    assert RenderSlot(p).dateTime == p.date.value + ['T'] + p.startTime;
    SplitTwo(p.date.value, p.startTime, 'T');
  }
}
