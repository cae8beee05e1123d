/** The six-bucket colour scale of the choropleth (`getColor`) and the legend
    table drawn beside the map. */
module Colors {

  /** The six fill colours, from the lowest bucket to the highest. */
  const Palette: seq<string> := ["#FFEDA0", "#FD8D3C", "#FC4E2A", "#E31A1C", "#BD0026", "#800026"]

  /** The five bucket bounds, ascending; a value moves up one bucket for each
      bound it strictly exceeds. */
  const Thresholds: seq<int> := [10000, 20000, 30000, 40000, 50000]

  /** How many of the bounds `ts` the value `v` strictly exceeds. */
  function CountExceeded(ts: seq<int>, v: int): (n: nat)
    ensures n <= |ts|
  {
    if ts == [] then 0
    else (if v > ts[0] then 1 else 0) + CountExceeded(ts[1..], v)
  }

  /** The bucket of a value: its position in `Palette`. */
  function Bucket(v: int): (b: nat)
    ensures b < |Palette|
  {
    CountExceeded(Thresholds, v)
  }

  /** The bucket count worked out bound by bound, highest bound first. */
  lemma BucketByBounds(v: int)
    ensures Bucket(v) == if v > 50000 then 5 else if v > 40000 then 4
                         else if v > 30000 then 3 else if v > 20000 then 2
                         else if v > 10000 then 1 else 0
  {
    var ts := Thresholds;
    assert ts[4..][1..] == [];
    assert CountExceeded(ts[4..], v) == if v > 50000 then 1 else 0;
    assert ts[3..][1..] == ts[4..];
    assert CountExceeded(ts[3..], v) == (if v > 40000 then 1 else 0) + CountExceeded(ts[4..], v);
    assert ts[2..][1..] == ts[3..];
    assert CountExceeded(ts[2..], v) == (if v > 30000 then 1 else 0) + CountExceeded(ts[3..], v);
    assert ts[1..][1..] == ts[2..];
    assert CountExceeded(ts[1..], v) == (if v > 20000 then 1 else 0) + CountExceeded(ts[2..], v);
    assert CountExceeded(ts, v) == (if v > 10000 then 1 else 0) + CountExceeded(ts[1..], v);
  }

  /** `getColor`: strict comparisons from the highest bound down, first match
      wins. */
  function GetColor(v: int): (c: string)
    ensures c == Palette[Bucket(v)]
  {
    BucketByBounds(v);
    if v > 50000 then "#800026"
    else if v > 40000 then "#BD0026"
    else if v > 30000 then "#E31A1C"
    else if v > 20000 then "#FC4E2A"
    else if v > 10000 then "#FD8D3C"
    else "#FFEDA0"
  }

  /** Position of `c` in the palette order. */
  function Rank(c: string): (i: nat)
    requires c in Palette
    ensures i < |Palette| && Palette[i] == c
  {
    if c == Palette[0] then 0
    else if c == Palette[1] then 1
    else if c == Palette[2] then 2
    else if c == Palette[3] then 3
    else if c == Palette[4] then 4
    else 5
  }

  /** Every value up to 10000, negative ones included, gets the palest colour;
      every value above 50000 gets the darkest. */
  lemma OuterBuckets(v: int)
    ensures v <= 10000 ==> GetColor(v) == "#FFEDA0"
    ensures v > 50000 ==> GetColor(v) == "#800026"
  {
  }

  /** Each bucket excludes its lower bound: a bound itself belongs to the
      bucket below, the next integer to the bucket above. */
  lemma LowerBoundsExcluded(i: nat)
    requires i < |Thresholds|
    ensures GetColor(Thresholds[i]) == Palette[i]
    ensures GetColor(Thresholds[i] + 1) == Palette[i + 1]
  {
  }

  /** More bounds are exceeded by a larger value. */
  lemma {:induction false} CountExceededMonotone(ts: seq<int>, a: int, b: int)
    requires a <= b
    ensures CountExceeded(ts, a) <= CountExceeded(ts, b)
  {
    if ts != [] {
      CountExceededMonotone(ts[1..], a, b);
    }
  }

  /** `getColor` is monotone in the palette order. */
  lemma GetColorMonotone(a: int, b: int)
    requires a <= b
    ensures Rank(GetColor(a)) <= Rank(GetColor(b))
  {
    CountExceededMonotone(Thresholds, a, b);
  }

  /** One row of the legend: its swatch colour, its caption and the bound it
      stands for. */
  datatype LegendItem = LegendItem(color: string, caption: string, min: int)

  /** The legend rows, darkest first. */
  const LegendItems: seq<LegendItem> := [
    LegendItem("#800026", "> 50,000", 50000),
    LegendItem("#BD0026", "40,000 - 50,000", 40000),
    LegendItem("#E31A1C", "30,000 - 40,000", 30000),
    LegendItem("#FC4E2A", "20,000 - 30,000", 20000),
    LegendItem("#FD8D3C", "10,000 - 20,000", 10000),
    LegendItem("#FFEDA0", "< 10,000", 0)
  ]

  /** The colour a reader of the legend assigns to `v`: the first row whose
      `min` the value exceeds, the last row when it exceeds none. */
  function LegendColor(items: seq<LegendItem>, v: int): (c: string)
    requires items != []
    ensures exists i | 0 <= i < |items| :: c == items[i].color
  {
    if |items| == 1 || v > items[0].min then items[0].color
    else
      var c := LegendColor(items[1..], v);
      assert forall i | 0 <= i < |items| - 1 :: items[1..][i] == items[i + 1];
      c
  }

  /** The legend lists the palette in reverse, darkest first, and its first
      five rows carry the bounds of `getColor`'s five branches. */
  lemma LegendMirrorsBranches()
    ensures |LegendItems| == |Palette|
    ensures forall i | 0 <= i < |LegendItems| :: LegendItems[i].color == Palette[|Palette| - 1 - i]
    ensures forall i | 0 <= i < |Thresholds| :: LegendItems[i].min == Thresholds[|Thresholds| - 1 - i]
  {
  }

  /** Reading the legend table classifies every value exactly as `getColor`. */
  lemma LegendAgreesWithGetColor(v: int)
    ensures LegendColor(LegendItems, v) == GetColor(v)
  {
    var items := LegendItems;
    assert LegendColor(items[5..], v) == "#FFEDA0";
    assert items[4..][1..] == items[5..];
    assert LegendColor(items[4..], v) == if v > 10000 then "#FD8D3C" else LegendColor(items[5..], v);
    assert items[3..][1..] == items[4..];
    assert LegendColor(items[3..], v) == if v > 20000 then "#FC4E2A" else LegendColor(items[4..], v);
    assert items[2..][1..] == items[3..];
    assert LegendColor(items[2..], v) == if v > 30000 then "#E31A1C" else LegendColor(items[3..], v);
    assert items[1..][1..] == items[2..];
    assert LegendColor(items[1..], v) == if v > 40000 then "#BD0026" else LegendColor(items[2..], v);
  }
}
