/** Step 4 of the report wizard, the chart options: whether charts are
    included, the chart type, the axis fields and the colour scheme, and which
    preview the panel shows for them. */
module Charts {
  import opened Wrappers

  /** The form's values; every field but the switch is optional. */
  datatype ChartConfig = ChartConfig(
    includeCharts: bool,
    chartType: Option<string>,
    xAxisField: Option<string>,
    yAxisField: Option<string>,
    colorScheme: Option<string>)

  /** The form's default values. */
  function Defaults(): (c: ChartConfig)
    ensures !c.includeCharts && c.chartType == Some("bar")
    ensures c.xAxisField == Some("name") && c.yAxisField == Some("value") && c.colorScheme == Some("default")
  {
    ChartConfig(false, Some("bar"), Some("name"), Some("value"), Some("default"))
  }

  /** `chartConfigSchema`: the switch is a boolean by construction and every
      other field may be absent or hold any string, so no configuration is
      rejected. */
  function ValidateChartConfig(c: ChartConfig): (errors: seq<string>)
    ensures errors == []
  {
    []
  }

  /** One entry of the fixed sample data the preview draws. */
  datatype ChartEntry = ChartEntry(name: string, value: int, uv: int)

  function MockChartData(): (r: seq<ChartEntry>)
    ensures |r| == 5
  {
    [ ChartEntry("Machine A", 400, 200),
      ChartEntry("Machine B", 300, 250),
      ChartEntry("Machine C", 200, 300),
      ChartEntry("Machine D", 278, 180),
      ChartEntry("Machine E", 189, 220) ]
  }

  const Colors: seq<string> := ["#0088FE", "#00C49F", "#FFBB28", "#FF8042", "#8884D8"]

  // ---------------------------------------------------------------------------
  // `renderChartPreview`

  /** `form.getValues(field) || fallback`: an absent or empty field falls back. */
  function AxisKey(field: Option<string>, fallback: string): (key: string)
    ensures field.Some? && field.value != "" ==> key == field.value
    ensures field.None? || field.value == "" ==> key == fallback
    ensures fallback != "" ==> key != ""
  {
    if field.Some? && field.value != "" then field.value else fallback
  }

  /** Slice i of the pie is filled with colour i modulo the palette's size. */
  function PieCellFills(n: nat): (fills: seq<string>)
    ensures |fills| == n
    ensures forall i :: 0 <= i < n ==> fills[i] in Colors
    ensures forall i :: 0 <= i < n ==> fills[i] == Colors[i % 5]
  {
    seq(n, i requires 0 <= i < n => Colors[i % |Colors|])
  }

  /** What the preview card shows. */
  datatype Preview =
    | Disabled
    | BarPreview(xKey: string, yKey: string, fill: string)
    | LinePreview(xKey: string, yKey: string, stroke: string)
    | PiePreview(dataKey: string, nameKey: string, cellFills: seq<string>)
    | Placeholder

  function RenderChartPreview(c: ChartConfig): (p: Preview)
    ensures !c.includeCharts <==> p == Disabled
    ensures c.includeCharts && c.chartType == Some("bar") <==> p.BarPreview?
    ensures c.includeCharts && c.chartType == Some("line") <==> p.LinePreview?
    ensures c.includeCharts && c.chartType == Some("pie") <==> p.PiePreview?
    ensures p.Placeholder? <==> c.includeCharts && c.chartType !in {Some("bar"), Some("line"), Some("pie")}
    ensures p.BarPreview? || p.LinePreview? ==>
      p.xKey == AxisKey(c.xAxisField, "name") && p.yKey == AxisKey(c.yAxisField, "value")
    ensures p.BarPreview? ==> p.fill == Colors[0]
    ensures p.LinePreview? ==> p.stroke == Colors[1]
    ensures p.PiePreview? ==>
      p.dataKey == AxisKey(c.yAxisField, "value") && p.nameKey == AxisKey(c.xAxisField, "name")
      && |p.cellFills| == |MockChartData()|
  {
    if !c.includeCharts then Disabled
    else if c.chartType == Some("bar") then
      BarPreview(AxisKey(c.xAxisField, "name"), AxisKey(c.yAxisField, "value"), Colors[0])
    else if c.chartType == Some("line") then
      LinePreview(AxisKey(c.xAxisField, "name"), AxisKey(c.yAxisField, "value"), Colors[1])
    else if c.chartType == Some("pie") then
      PiePreview(AxisKey(c.yAxisField, "value"), AxisKey(c.xAxisField, "name"), PieCellFills(|MockChartData()|))
    else Placeholder
  }

  /** With charts off, nothing but the switch matters. */
  lemma DisabledIgnoresFields(c: ChartConfig, d: ChartConfig)
    requires !c.includeCharts && !d.includeCharts
    ensures RenderChartPreview(c) == RenderChartPreview(d)
  {
  }

  /** The preview never depends on the colour scheme. */
  lemma ColorSchemeUnused(c: ChartConfig, scheme: Option<string>)
    ensures RenderChartPreview(c.(colorScheme := scheme)) == RenderChartPreview(c)
  {
  }

  /** Every drawn chart has non-empty axis keys, and the five pie slices get
      five different colours. */
  lemma ChartsAreDrawable(c: ChartConfig)
    ensures RenderChartPreview(c).BarPreview? || RenderChartPreview(c).LinePreview? ==>
      RenderChartPreview(c).xKey != "" && RenderChartPreview(c).yKey != ""
    ensures RenderChartPreview(c).PiePreview? ==>
      RenderChartPreview(c).dataKey != "" && RenderChartPreview(c).nameKey != ""
      && forall i, j :: 0 <= i < j < 5 ==> RenderChartPreview(c).cellFills[i] != RenderChartPreview(c).cellFills[j]
  {
    var p := RenderChartPreview(c);
    if p.PiePreview? {
      ColorsDistinct();
      FiveSlicesUsePalette();
      assert p.cellFills == PieCellFills(5) == Colors;
    }
  }

  /** The five slices of the sample data take the palette's colours in order. */
  lemma FiveSlicesUsePalette()
    ensures PieCellFills(5) == Colors
  {
    var f := PieCellFills(5);
    assert 0 % 5 == 0 && 1 % 5 == 1 && 2 % 5 == 2 && 3 % 5 == 3 && 4 % 5 == 4;
    assert f[0] == Colors[0] && f[1] == Colors[1] && f[2] == Colors[2] && f[3] == Colors[3] && f[4] == Colors[4];
  }

  /** The five palette colours are different. */
  lemma ColorsDistinct()
    ensures forall i, j :: 0 <= i < j < |Colors| ==> Colors[i] != Colors[j]
  {
    forall i, j | 0 <= i < j < |Colors| ensures Colors[i] != Colors[j] {
      assert Colors[i][1] != Colors[j][1] || Colors[i][3] != Colors[j][3];
    }
  }

  /** The defaults show "disabled"; switching charts on shows the bar chart of
      value by name, since the switch leaves the other fields as they were. */
  lemma DefaultPreviews()
    ensures RenderChartPreview(Defaults()) == Disabled
    ensures RenderChartPreview(Defaults().(includeCharts := true)) == BarPreview("name", "value", "#0088FE")
    ensures ValidateChartConfig(Defaults()) == []
  {
  }
}
