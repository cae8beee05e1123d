/** The forecast table of one period and the lookup that joins a region code
    to its forecast value (`forecastData.july_2024.find(...)?.forecast_value || 0`). */
module Forecast {
  import opened Wrappers

  /** One record of a forecast period: a region code and a visitor count. */
  datatype ForecastItem = ForecastItem(regionId: string, forecastValue: int)

  /** The table shipped with the map, for the period July 2024. */
  const July2024: seq<ForecastItem> := [
    ForecastItem("GAL", 18500),
    ForecastItem("CAT", 45200),
    ForecastItem("AND", 51300),
    ForecastItem("MAD", 24000),
    ForecastItem("VAL", 32800),
    ForecastItem("PVA", 16200)
  ]

  /** No record of `records` carries the region code `key`. */
  predicate Absent(records: seq<ForecastItem>, key: string) {
    forall j | 0 <= j < |records| :: records[j].regionId != key
  }

  /** Position of the record `Array.prototype.find` returns: the first one
      whose region code is `key`, or None when there is none. */
  function FindFirst(records: seq<ForecastItem>, key: string): (r: Option<nat>)
    ensures r.None? <==> Absent(records, key)
    ensures r.Some? ==> r.value < |records| && records[r.value].regionId == key
    ensures r.Some? ==> forall j | 0 <= j < r.value :: records[j].regionId != key
  {
    if records == [] then None
    else if records[0].regionId == key then Some(0)
    else
      match FindFirst(records[1..], key)
      case None => None
      case Some(i) => Some(i + 1)
  }

  /** The forecast value the map uses for region `key`: the value of the
      first matching record, 0 when no record matches. The `|| 0` of the
      source also replaces a falsy value by 0, which for an integer changes
      nothing. */
  function ForecastValue(records: seq<ForecastItem>, key: string): (v: int)
    ensures Absent(records, key) ==> v == 0
    ensures forall i | 0 <= i < |records| && records[i].regionId == key
                       && Absent(records[..i], key) :: v == records[i].forecastValue
  {
    match FindFirst(records, key)
    case None => 0
    case Some(i) =>
      records[i].forecastValue
  }

  /** A record appended after one that already matches `key` never changes
      the value looked up for `key`. */
  lemma LaterRecordsIgnored(records: seq<ForecastItem>, more: seq<ForecastItem>, key: string)
    requires !Absent(records, key)
    ensures ForecastValue(records + more, key) == ForecastValue(records, key)
  {
    var i := FindFirst(records, key).value;
    var all := records + more;
    assert all[i] == records[i];
    assert all[..i] == records[..i];
    assert Absent(records[..i], key);
  }

  /** Reference definition of the region index: a map from region code to
      forecast value in which, among duplicates, the EARLIEST record wins
      (it is built from the back, so earlier records overwrite later ones). */
  function ForecastIndex(records: seq<ForecastItem>): (m: map<string, int>)
    ensures m.Keys == set j | 0 <= j < |records| :: records[j].regionId
  {
    if records == [] then map[]
    else
      var rest := ForecastIndex(records[1..]);
      assert forall j | 1 <= j < |records| :: records[j] == records[1..][j - 1];
      assert forall j | 0 <= j < |records| - 1 :: records[1..][j] == records[j + 1];
      rest[records[0].regionId := records[0].forecastValue]
  }

  /** The linear lookup and the index agree on every key, present or not. */
  lemma {:induction false} LookupMatchesIndex(records: seq<ForecastItem>, key: string)
    ensures ForecastValue(records, key)
         == (if key in ForecastIndex(records) then ForecastIndex(records)[key] else 0)
  {
    if records == [] {
    } else if records[0].regionId == key {
      assert Absent(records[..0], key);
    } else {
      LookupMatchesIndex(records[1..], key);
      match FindFirst(records[1..], key)
      case None =>
        assert Absent(records, key) by {
          forall j | 0 <= j < |records| ensures records[j].regionId != key {
            if j > 0 { assert records[j] == records[1..][j - 1]; }
          }
        }
      case Some(i) =>
        assert records[i + 1] == records[1..][i];
        assert Absent(records[..i + 1], key) by {
          forall j | 0 <= j < i + 1 ensures records[j].regionId != key {
            if j > 0 { assert records[j] == records[1..][j - 1]; }
          }
        }
    }
  }

  /** The six regions of the July 2024 table each get their own record's
      value (their codes already differ in the first letter). */
  lemma July2024Values()
    ensures ForecastValue(July2024, "GAL") == 18500
    ensures ForecastValue(July2024, "CAT") == 45200
    ensures ForecastValue(July2024, "AND") == 51300
    ensures ForecastValue(July2024, "MAD") == 24000
    ensures ForecastValue(July2024, "VAL") == 32800
    ensures ForecastValue(July2024, "PVA") == 16200
  {
    var t := July2024;
    forall i, j | 0 <= j < i < |t| ensures t[j].regionId != t[i].regionId {
      assert t[j].regionId[0] != t[i].regionId[0];
    }
    assert Absent(t[..0], "GAL");
    assert Absent(t[..1], "CAT");
    assert Absent(t[..2], "AND");
    assert Absent(t[..3], "MAD");
    assert Absent(t[..4], "VAL");
    assert Absent(t[..5], "PVA");
  }
}
