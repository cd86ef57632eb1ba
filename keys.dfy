/**
 * Identity of a grid cell in the cell state store. The engine keys its store
 * by the string of the coordinates rounded to four decimals; here the key is
 * the pair of those rounded coordinates scaled by 10^4, as integers.
 */
module CellKeys {
  import opened Numerics

  datatype Key = Key(lon: int, lat: int)

  /** The key of the cell at (lon, lat): both coordinates rounded to 4 decimals. */
  function KeyOf(lon: real, lat: real): (k: Key)
    ensures -0.5 <= k.lon as real - lon * 10000.0 <= 0.5
    ensures -0.5 <= k.lat as real - lat * 10000.0 <= 0.5
  {
    Key(RoundHalfEven(lon * 10000.0), RoundHalfEven(lat * 10000.0))
  }

  /** The keys of every (lon, lat) of the working grid. */
  function GridKeys(lons: seq<real>, lats: seq<real>): set<Key> {
    set lon, lat | lon in lons && lat in lats :: KeyOf(lon, lat)
  }

  /** The keys of one longitude's row of the working grid. */
  function RowKeys(lon: real, lats: seq<real>): set<Key> {
    set lat | lat in lats :: KeyOf(lon, lat)
  }

  /** A row's keys, latitude by latitude. */
  lemma RowKeysStep(lon: real, lats: seq<real>, j: int)
    requires 0 <= j < |lats|
    ensures RowKeys(lon, lats[..j + 1]) == RowKeys(lon, lats[..j]) + {KeyOf(lon, lats[j])}
  {
    assert lats[..j + 1] == lats[..j] + [lats[j]];
  }

  /** The grid's keys, row by row. */
  lemma GridKeysStep(lons: seq<real>, lats: seq<real>, i: int)
    requires 0 <= i < |lons|
    ensures GridKeys(lons[..i + 1], lats) == GridKeys(lons[..i], lats) + RowKeys(lons[i], lats)
  {
    var prefix := lons[..i + 1];
    assert prefix == lons[..i] + [lons[i]];
    forall k | k in GridKeys(prefix, lats)
      ensures k in GridKeys(lons[..i], lats) + RowKeys(lons[i], lats)
    {
      var lon, lat :| lon in prefix && lat in lats && k == KeyOf(lon, lat);
      if lon != lons[i] {
        assert lon in lons[..i];
      }
    }
  }

  /** impact_test_id: the monitoring cell at (0.1412, 0.1867). */
  const IMPACT_TEST_ID: Key := Key(1412, 1867)

  /** The monitoring cell is the key of the coordinates (0.14122179, 0.18672199). */
  lemma ImpactTestIdIsKeyOf()
    ensures KeyOf(0.14122179, 0.18672199) == IMPACT_TEST_ID
  {
    assert (0.14122179 * 10000.0).Floor == 1412;
    assert (0.18672199 * 10000.0).Floor == 1867;
  }
}
