/** What the map derives for one geographic feature: its baseline style
    (`styleFeature`), its popup content (`onEachFeature`), the partial
    highlight style applied on hover, and the hover event traces. */
module Styling {
  import opened Wrappers
  import opened Forecast
  import opened Colors

  /** The properties of a feature the map reads. Either may be missing
      (`feature.properties?.region_id`, `properties?.name`). */
  datatype Feature = Feature(regionId: Option<string>, name: Option<string>)

  /** The path style of one feature polygon. */
  datatype Style = Style(
    fillColor: string,
    weight: int,
    opacity: real,
    color: string,
    dashArray: string,
    fillOpacity: real)

  /** A partial style, as passed to Leaflet's `setStyle`: only the fields
      that are present are written. */
  datatype StylePatch = StylePatch(
    fillColor: Option<string>,
    weight: Option<int>,
    opacity: Option<real>,
    color: Option<string>,
    dashArray: Option<string>,
    fillOpacity: Option<real>)

  /** `setStyle`: the fields present in the patch overwrite the current ones;
      the fields the patch leaves out keep their current value. */
  function SetStyle(s: Style, p: StylePatch): (r: Style)
    ensures r.fillColor == (if p.fillColor.Some? then p.fillColor.value else s.fillColor)
    ensures r.weight == (if p.weight.Some? then p.weight.value else s.weight)
    ensures r.opacity == (if p.opacity.Some? then p.opacity.value else s.opacity)
    ensures r.color == (if p.color.Some? then p.color.value else s.color)
    ensures r.dashArray == (if p.dashArray.Some? then p.dashArray.value else s.dashArray)
    ensures r.fillOpacity == (if p.fillOpacity.Some? then p.fillOpacity.value else s.fillOpacity)
  {
    Style(
      p.fillColor.GetOr(s.fillColor),
      p.weight.GetOr(s.weight),
      p.opacity.GetOr(s.opacity),
      p.color.GetOr(s.color),
      p.dashArray.GetOr(s.dashArray),
      p.fillOpacity.GetOr(s.fillOpacity))
  }

  /** A complete style seen as a patch that writes every field. */
  function Whole(s: Style): StylePatch {
    StylePatch(Some(s.fillColor), Some(s.weight), Some(s.opacity),
               Some(s.color), Some(s.dashArray), Some(s.fillOpacity))
  }

  /** Applying a complete style replaces whatever was there before; this is
      why re-applying the style function restores the baseline. */
  lemma SetWholeStyle(current: Style, s: Style)
    ensures SetStyle(current, Whole(s)) == s
  {
  }

  /** The forecast value of a feature: the lookup by its region code, and 0
      when the feature has no region code (no record's code equals an
      undefined one). */
  function FeatureValue(records: seq<ForecastItem>, f: Feature): (v: int)
    ensures f.regionId.None? ==> v == 0
    ensures f.regionId.Some? ==> v == ForecastValue(records, f.regionId.value)
    ensures f.regionId.Some? && Absent(records, f.regionId.value) ==> v == 0
  {
    match f.regionId
    case None => 0
    case Some(key) => ForecastValue(records, key)
  }

  /** `styleFeature`: the baseline style of a feature. Only the fill colour
      depends on the region; it is the colour of the feature's bucket. */
  function StyleFeature(records: seq<ForecastItem>, f: Feature): (s: Style)
    ensures s.fillColor in Palette
    ensures s.fillColor == Palette[Bucket(FeatureValue(records, f))]
  {
    var forecastValue := FeatureValue(records, f);
    Style(GetColor(forecastValue), 2, 1.0, "white", "3", 0.7)
  }

  /** The baseline styles of any two features differ at most in their fill
      colour, and features with the same forecast value get the same style. */
  lemma OnlyFillColorVaries(records: seq<ForecastItem>, f: Feature, g: Feature)
    ensures StyleFeature(records, g)
         == StyleFeature(records, f).(fillColor := StyleFeature(records, g).fillColor)
    ensures FeatureValue(records, f) == FeatureValue(records, g)
        ==> StyleFeature(records, f) == StyleFeature(records, g)
  {
  }

  /** The fixed fields of every baseline style. */
  lemma BaselineConstants(records: seq<ForecastItem>, f: Feature)
    ensures var s := StyleFeature(records, f);
      s.weight == 2 && s.opacity == 1.0 && s.color == "white"
      && s.dashArray == "3" && s.fillOpacity == 0.7
  {
  }

  /** What the popup of a feature shows: the region name (when present) and
      its forecast value. The HTML markup and the locale formatting of the
      number are not modelled. */
  datatype Popup = Popup(name: Option<string>, forecastValue: int)

  /** The popup bound in `onEachFeature`. */
  function PopupFor(records: seq<ForecastItem>, f: Feature): (p: Popup)
    ensures p.name == f.name
    ensures p.forecastValue == FeatureValue(records, f)
    ensures f.regionId.None? ==> p.forecastValue == 0
  {
    Popup(f.name, FeatureValue(records, f))
  }

  /** The value the popup shows is the value the fill colour was chosen
      from. */
  lemma PopupAgreesWithFill(records: seq<ForecastItem>, f: Feature)
    ensures PopupFor(records, f).forecastValue == FeatureValue(records, f)
    ensures StyleFeature(records, f).fillColor == GetColor(PopupFor(records, f).forecastValue)
  {
  }

  /** The partial style the `mouseover` handler passes to `setStyle`. */
  const HighlightPatch: StylePatch := StylePatch(None, Some(3), None, Some("#666"), Some(""), Some(0.8))

  /** The style of a feature under the pointer. */
  function Highlight(s: Style): (h: Style)
    ensures h.weight == 3 && h.color == "#666" && h.dashArray == "" && h.fillOpacity == 0.8
    ensures h.fillColor == s.fillColor && h.opacity == s.opacity
  {
    SetStyle(s, HighlightPatch)
  }

  /** Highlighting twice is highlighting once. */
  lemma HighlightIdempotent(s: Style)
    ensures Highlight(Highlight(s)) == Highlight(s)
  {
  }

  /** The pointer events a feature reacts to. */
  datatype PointerEvent = MouseOver | MouseOut

  /** One event on a feature whose baseline is `baseline`: `mouseover` merges
      the highlight patch onto the current style, `mouseout` re-applies the
      style function, which writes the whole baseline. */
  function Step(baseline: Style, s: Style, e: PointerEvent): (r: Style)
    ensures e == MouseOut ==> r == baseline
    ensures e == MouseOver ==> r == Highlight(s)
  {
    match e
    case MouseOver => Highlight(s)
    case MouseOut => SetStyle(s, Whole(baseline))
  }

  /** The style after the events `es`, starting from `s`. */
  function Run(baseline: Style, s: Style, es: seq<PointerEvent>): Style
    decreases |es|
  {
    if es == [] then s else Run(baseline, Step(baseline, s, es[0]), es[1..])
  }

  /** One more event at the end of a trace is one more step. */
  lemma {:induction false} RunSnoc(baseline: Style, s: Style, es: seq<PointerEvent>, e: PointerEvent)
    ensures Run(baseline, s, es + [e]) == Step(baseline, Run(baseline, s, es), e)
    decreases |es|
  {
    if es == [] {
      assert [e][1..] == [];
    } else {
      assert (es + [e])[1..] == es[1..] + [e];
      RunSnoc(baseline, Step(baseline, s, es[0]), es[1..], e);
    }
  }

  /** Any trace starting from the baseline ends in one of the two states of
      the hover machine: the baseline after a `mouseout` (or no event at
      all), the highlighted baseline after a `mouseover`. */
  lemma {:induction false} RunEndsInBaselineOrHighlight(baseline: Style, es: seq<PointerEvent>)
    ensures Run(baseline, baseline, es)
         == if es != [] && es[|es| - 1] == MouseOver then Highlight(baseline) else baseline
    decreases |es|
  {
    if es != [] {
      var init, e := es[..|es| - 1], es[|es| - 1];
      assert es == init + [e];
      RunEndsInBaselineOrHighlight(baseline, init);
      RunSnoc(baseline, baseline, init, e);
      if e == MouseOver {
        HighlightIdempotent(baseline);
      } else {
        SetWholeStyle(Run(baseline, baseline, init), baseline);
      }
    }
  }

  /** Entering then leaving restores the exact style from before. */
  lemma EnterLeaveRestores(records: seq<ForecastItem>, f: Feature)
    ensures var b := StyleFeature(records, f);
      Run(b, b, [MouseOver, MouseOut]) == b
  {
  }

  /** The July 2024 table colours each of its six regions by the bucket of
      its forecast. */
  lemma July2024Colors()
    ensures GetColor(ForecastValue(July2024, "GAL")) == "#FD8D3C"
    ensures GetColor(ForecastValue(July2024, "CAT")) == "#BD0026"
    ensures GetColor(ForecastValue(July2024, "AND")) == "#800026"
    ensures GetColor(ForecastValue(July2024, "MAD")) == "#FC4E2A"
    ensures GetColor(ForecastValue(July2024, "VAL")) == "#E31A1C"
    ensures GetColor(ForecastValue(July2024, "PVA")) == "#FD8D3C"
    ensures PopupFor(July2024, Feature(Some("GAL"), Some("Galicia"))).forecastValue == 18500
    ensures StyleFeature(July2024, Feature(Some("GAL"), Some("Galicia"))).fillColor == "#FD8D3C"
  {
    July2024Values();
  }

  /** A region missing from the table is drawn with the palest colour and a
      popup value of 0. */
  lemma UnknownRegionScenario()
    ensures StyleFeature(July2024, Feature(Some("XYZ"), None)).fillColor == "#FFEDA0"
    ensures PopupFor(July2024, Feature(Some("XYZ"), None)).forecastValue == 0
  {
  }
}
