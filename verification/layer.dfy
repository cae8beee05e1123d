/** The live path layer of one feature: its current style changes on hover
    (`mouseover` calls `setStyle` with the highlight patch, `mouseout` calls
    the GeoJSON group's `resetStyle`, which re-applies `styleFeature`). */
module Layers {
  import opened Forecast
  import opened Styling

  class FeatureLayer {
    /** The feature the layer draws. */
    const feature: Feature
    /** The forecast table the registered style function reads. */
    const records: seq<ForecastItem>
    /** The style currently applied to the polygon. */
    var style: Style
    /** The pointer events seen so far. */
    ghost var events: seq<PointerEvent>

    /** The output of the registered style function for this feature. */
    function Baseline(): Style {
      StyleFeature(records, feature)
    }

    /** The current style is the baseline after replaying every event. */
    ghost predicate Valid()
      reads this
    {
      style == Run(Baseline(), Baseline(), events)
    }

    /** When the group adds the layer it applies the style function. */
    constructor (records: seq<ForecastItem>, feature: Feature)
      ensures this.records == records && this.feature == feature
      ensures Valid() && events == []
      ensures style == StyleFeature(records, feature)
    {
      this.records := records;
      this.feature := feature;
      style := StyleFeature(records, feature);
      events := [];
    }

    /** `mouseover`: merge the highlight patch onto the current style. */
    method OnMouseOver()
      requires Valid()
      modifies this
      ensures Valid() && events == old(events) + [MouseOver]
      ensures style == Highlight(old(style)) && style == Highlight(Baseline())
    {
      style := SetStyle(style, HighlightPatch);
      RunSnoc(Baseline(), Baseline(), events, MouseOver);
      events := events + [MouseOver];
      RunEndsInBaselineOrHighlight(Baseline(), events);
    }

    /** `mouseout`: `resetStyle` writes the style function's whole output. */
    method OnMouseOut()
      requires Valid()
      modifies this
      ensures Valid() && events == old(events) + [MouseOut]
      ensures style == Baseline()
    {
      style := SetStyle(style, Whole(StyleFeature(records, feature)));
      SetWholeStyle(old(style), Baseline());
      RunSnoc(Baseline(), Baseline(), events, MouseOut);
      events := events + [MouseOut];
    }
  }
}
