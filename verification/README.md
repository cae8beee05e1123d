# Tourism forecast choropleth — a Dafny model

This project models the region-forecast styling core of the `TourismMap` component
of the Spanish tourism forecast map. The map draws six Spanish regions and shades each one
by its July 2024 visitor forecast. The model covers these parts:

- **Forecast lookup** (`forecast.dfy`, module `Forecast`). This is the join of a feature's region code to the
  `july_2024` records. It is written as `Array.prototype.find`, so the first matching record
  wins, and a region with no record gets the value 0. `ForecastIndex` is an independent
  reference definition of the same join as a map. `LookupMatchesIndex` proves that the two agree
  on every key.
- **Colour scale and legend** (`colors.dfy`, module `Colors`). `getColor` is a six-bucket classifier
  with strict `>` comparisons. It is specified by counting how many of the five bounds a value exceeds.
  The legend table is proved to list the same colours and bounds, and a reading of the legend is
  proved to classify every value exactly as `getColor` does.
- **Per-feature style and popup** (`styling.dfy`, module `Styling`). `styleFeature` gives the baseline style.
  Only its fill colour depends on the region. The popup shows the same value the fill colour was chosen from.
  Leaflet's `setStyle` merges a partial style (`StylePatch`), and the hover highlight is such a partial style.
  Hover event traces (`Run`) are proved to always end in the baseline or in the highlighted baseline.
- **Live layer** (`layer.dfy`, module `Layers`). `FeatureLayer` is a class whose `style` field is the style
  currently applied to one polygon. `OnMouseOver` merges the highlight patch onto it. `OnMouseOut` re-applies
  the registered style function, which is what `resetStyle` does. The class invariant `Valid()` ties the
  live style to the replay of every pointer event seen so far.

Forecast values are integers (`int`), like the literals in the table. Colours are the hex strings of the source.
Opacities are `real`.

When a region has several records, the first one wins, because the lookup is `find`.
`ForecastValue`'s contract and `LaterRecordsIgnored` state this.

## Model

| member | source | states |
|---|---|---|
| Forecast.FindFirst | src/components/TourismMap.tsx:128-130 | `find` yields the index of a record whose code is the key, with no earlier record having that code; it yields nothing exactly when no record has the code |
| Forecast.ForecastValue | src/components/TourismMap.tsx:128-132 | the value is that of the first record with the key; it is 0 when no record has the key |
| Forecast.LaterRecordsIgnored | src/components/TourismMap.tsx:128-132 | once some record matches a key, appending any records never changes the value looked up for it |
| Forecast.ForecastIndex | src/components/TourismMap.tsx:128-132 | the reference index's keys are exactly the region codes of the records |
| Forecast.LookupMatchesIndex | src/components/TourismMap.tsx:128-132 | for every key, the linear first-match lookup equals the first-wins index entry, or 0 for a key the index lacks |
| Forecast.July2024Values | src/components/TourismMap.tsx:20-29 | each of the six regions of the July 2024 table looks up its own record's value |
| Colors.GetColor | src/components/TourismMap.tsx:116-123 | the colour is the palette entry at the number of bounds 10000..50000 that the value strictly exceeds |
| Colors.OuterBuckets | src/components/TourismMap.tsx:116-122 | every value ≤ 10000, negatives included, is `#FFEDA0`; every value > 50000 is `#800026` |
| Colors.LowerBoundsExcluded | src/components/TourismMap.tsx:117-121 | each bound belongs to the bucket below it, and the bound plus one belongs to the bucket above it |
| Colors.GetColorMonotone | src/components/TourismMap.tsx:116-122 | a ≤ b implies that the palette rank of getColor(a) is ≤ the palette rank of getColor(b) |
| Colors.LegendMirrorsBranches | src/components/TourismMap.tsx:220-227 | the legend has six rows holding the palette in reverse order; the first five rows' `min` values are getColor's five bounds, highest first |
| Colors.LegendAgreesWithGetColor | src/components/TourismMap.tsx:220-227 | for every value, taking the first legend row whose `min` the value exceeds (the last row otherwise) gives getColor's colour |
| Styling.SetStyle | src/components/TourismMap.tsx:169-174 | Leaflet's `setStyle` merge: every field present in the partial style is written, and every field it leaves out keeps its current value |
| Styling.SetWholeStyle | src/components/TourismMap.tsx:177 | applying a complete style through `setStyle` gives that style, whatever the current style was |
| Styling.FeatureValue | src/components/TourismMap.tsx:127-132 | a feature with a region code gets the first-match lookup value for that code; a feature without a code, or with a code no record carries, gets 0 |
| Styling.StyleFeature | src/components/TourismMap.tsx:126-143 | the baseline fill colour is a palette colour, namely the one for the bucket of the feature's forecast value |
| Styling.OnlyFillColorVaries | src/components/TourismMap.tsx:135-142 | any two features' baseline styles differ at most in `fillColor`; features with equal values get equal styles |
| Styling.BaselineConstants | src/components/TourismMap.tsx:135-142 | every baseline has weight 2, opacity 1, colour white, dash "3" and fill opacity 0.7 |
| Styling.PopupFor | src/components/TourismMap.tsx:146-163 | the popup carries the feature's name and shows exactly the feature's looked-up forecast value (0 without a region code) |
| Styling.PopupAgreesWithFill | src/components/TourismMap.tsx:151-161 | the popup shows the same value the fill colour is computed from, and the fill colour is getColor of that value |
| Styling.Highlight | src/components/TourismMap.tsx:169-174 | hover sets weight 3, colour #666, an empty dash pattern and fill opacity 0.8; fill colour and opacity stay unchanged |
| Styling.HighlightIdempotent | src/components/TourismMap.tsx:169-174 | highlighting an already highlighted style changes nothing |
| Styling.Step | src/components/TourismMap.tsx:166-178 | one pointer event: `mouseout` yields the baseline whatever the current style is; `mouseover` yields the highlight of the current style |
| Styling.RunEndsInBaselineOrHighlight | src/components/TourismMap.tsx:166-178 | from the baseline, any sequence of mouseover/mouseout events ends in the highlighted baseline if the last event is a mouseover, and in the exact baseline otherwise |
| Styling.EnterLeaveRestores | src/components/TourismMap.tsx:167-178 | mouseover followed by mouseout restores the exact baseline style of any feature |
| Styling.July2024Colors | src/components/TourismMap.tsx:22-27 | the six regions get #FD8D3C, #BD0026, #800026, #FC4E2A, #E31A1C and #FD8D3C; the Galicia feature is filled #FD8D3C and its popup shows 18500 |
| Styling.UnknownRegionScenario | src/components/TourismMap.tsx:126-133 | a region code missing from the table is filled #FFEDA0, and its popup shows 0 |
| Layers.FeatureLayer.constructor | src/components/TourismMap.tsx:202-204 | a freshly added layer carries the style function's output, with no events seen |
| Layers.FeatureLayer.OnMouseOver | src/components/TourismMap.tsx:167-175 | the live style becomes the highlight of the previous style, which is the highlighted baseline; the invariant is kept |
| Layers.FeatureLayer.OnMouseOut | src/components/TourismMap.tsx:176-178 | the live style becomes exactly the baseline; the invariant is kept |

## Left out

- Leaflet setup and rendering are not modelled: the default-icon patch, `L.map` and its options, the tile layer, mounting the GeoJSON layer, and `bindPopup` (src/components/TourismMap.tsx:7-12, 188-205). These are calls into a foreign library.
- Leaflet's `resetStyle` first restores the layer's default path options and then applies the style function. The default options are not modelled. Because the style function writes every field of the modelled style, the result is the same.
- The optional chaining in `geoJsonLayerRef.current?.resetStyle` is not modelled. The ref is assigned when the layer is mounted, before any pointer event can reach a feature. Nothing in the component resets it.
- React lifecycle is not modelled: the refs, the `useEffect` initialisation and cleanup, and the JSX of the map container and the legend card. This is UI plumbing with no logic over the data.
- The popup's HTML markup and `toLocaleString` formatting are not modelled. The formatting is locale-dependent and comes from the runtime library. `PopupFor` keeps only the name and the number the popup shows. A missing name appears as `None`; JavaScript would print it as "undefined".
- The polygon coordinates of the regions are not modelled. They are floating-point geographic data with no logic over them. A feature is modelled by its region code and name only.
- Legend captions are carried as data, but their meaning is not modelled. The `< 10,000` and `10,000 - 20,000` captions suggest that 10000 belongs to the upper bucket, while `getColor` puts it in the lowest bucket. This is a cosmetic text issue.
- Colors.GetColor: modelled over integers only. JavaScript numbers can also be fractional or NaN; a NaN fails every `>` test and gets `#FFEDA0`. The table's values are integer literals.
- Forecast.ForecastValue: the `|| 0` fallback turns a falsy value into 0. On an integer that is the identity, so the model returns the found value as it is. The NaN case the fallback would also catch is not modelled.
- `console.log` calls are not modelled; they only produce diagnostic output.
- src/pages/Index.tsx is not modelled. It is page layout with no logic.
