/**
 * The plugin configuration held in memory: the time of the last save, the settings and
 * the table of shared build numbers keyed by id (a `Hashtable<Integer, SharedBuildNumberEntity>`).
 */
module Configuration {
  import opened JavaString
  import opened Entity
  import opened Settings

  /** A map whose different keys hold different values has exactly as many values as keys. */
  lemma {:induction false} InjectiveValuesCard<K, V>(m: map<K, V>)
    requires forall a, b | a in m && b in m && a != b :: m[a] != m[b]
    ensures |m.Values| == |m|
    decreases |m|
  {
    if m != map[] {
      var k :| k in m;
      var rest := m - {k};
      assert rest.Keys == m.Keys - {k};
      InjectiveValuesCard(rest);
      assert m.Values == rest.Values + {m[k]} by {
        forall v | v in m.Values ensures v in rest.Values + {m[k]} {
          var j :| j in m && m[j] == v;
          if j != k {
            assert rest[j] == v;
          }
        }
      }
      assert m[k] !in rest.Values;
    }
  }

  /** A key under which `v` is stored. */
  lemma KeyOf<K, V>(m: map<K, V>, v: V) returns (k: K)
    requires v in m.Values
    ensures k in m && m[k] == v
  {
    k :| k in m && m[k] == v;
  }

  /** The entities of a table as values, under the same keys. */
  function ValuesById(table: map<int, SharedBuildNumberEntity>): map<int, SharedBuildNumber>
    reads table.Values
  {
    map k | k in table :: table[k].Value()
  }

  /** Dropping a key from the table drops it from its values. */
  lemma ValuesByIdRemove(table: map<int, SharedBuildNumberEntity>, id: int)
    ensures ValuesById(table - {id}) == ValuesById(table) - {id}
  {
  }

  /** Filing `e` under `k` in a table whose other entries still hold `before`'s values. */
  lemma ValuesByIdWrite(table: map<int, SharedBuildNumberEntity>, k: int, e: SharedBuildNumberEntity, before: map<int, SharedBuildNumber>)
    requires table.Keys == before.Keys
    requires forall j | j in table && j != k :: table[j].Value() == before[j]
    ensures ValuesById(table[k := e]) == before[k := e.Value()]
  {
    assert ValuesById(table[k := e]).Keys == before[k := e.Value()].Keys;
  }

  class ConfigurationEntity {
    /** The ISO-8601 text of the last save; null until the first save. */
    var lastUpdate: NString
    var settings: SettingsEntity
    var buildNumbers: map<int, SharedBuildNumberEntity>
    ghost var Repr: set<object>

    /** Every stored entity is filed under its own id. */
    ghost predicate Valid()
      reads this, Repr
    {
      && this in Repr
      && settings in Repr
      && (forall k | k in buildNumbers :: buildNumbers[k] in Repr && buildNumbers[k].id == k)
    }

    /** The stored build numbers as values, by id. */
    function Numbers(): map<int, SharedBuildNumber>
      reads this, buildNumbers.Values
    {
      ValuesById(buildNumbers)
    }

    /** The digester creates the configuration empty and then sets the parsed settings. */
    constructor (settings: SettingsEntity)
      ensures Valid() && fresh(Repr - {settings})
      ensures lastUpdate == Null && this.settings == settings && buildNumbers == map[]
    {
      lastUpdate := Null;
      this.settings := settings;
      buildNumbers := map[];
      Repr := {this, settings};
    }

    method SetLastUpdate(lastUpdate: NString)
      requires Valid()
      modifies this
      ensures Valid() && Repr == old(Repr)
      ensures this.lastUpdate == lastUpdate
      ensures settings == old(settings) && buildNumbers == old(buildNumbers)
    {
      this.lastUpdate := lastUpdate;
    }

    /** The entity stored under `id`, or null when there is none. */
    method GetBuildNumber(id: int) returns (e: SharedBuildNumberEntity?)
      requires Valid()
      ensures id in buildNumbers ==> e == buildNumbers[id]
      ensures id !in buildNumbers ==> e == null
      ensures e != null ==> e.id == id && e in Repr
    {
      e := if id in buildNumbers then buildNumbers[id] else null;
    }

    /** `buildNumbers.values()`: one entity per stored id, in no particular order. */
    method GetBuildNumbers() returns (values: set<SharedBuildNumberEntity>)
      requires Valid()
      ensures values == buildNumbers.Values
      ensures |values| == |buildNumbers|
      ensures forall e | e in values :: e in Repr && e.id in buildNumbers && buildNumbers[e.id] == e
    {
      values := buildNumbers.Values;
      forall a, b | a in buildNumbers && b in buildNumbers && a != b
        ensures buildNumbers[a] != buildNumbers[b]
      {
        assert buildNumbers[a].id == a && buildNumbers[b].id == b;
      }
      InjectiveValuesCard(buildNumbers);
      forall e | e in values ensures e in Repr && e.id in buildNumbers && buildNumbers[e.id] == e {
        var k :| k in buildNumbers && buildNumbers[k] == e;
        assert e.id == k;
      }
    }

    /** `put(e.getId(), e)`: files `e` under its id, replacing whatever was there. */
    method AddOrUpdateBuildNumber(e: SharedBuildNumberEntity)
      requires Valid()
      modifies this
      ensures Valid() && Repr == old(Repr) + {e}
      ensures buildNumbers == old(buildNumbers)[e.id := e]
      ensures |buildNumbers| == |old(buildNumbers)| + (if e.id in old(buildNumbers) then 0 else 1)
      ensures settings == old(settings) && lastUpdate == old(lastUpdate)
      ensures Numbers() == old(ValuesById(buildNumbers[e.id := e]))
    {
      buildNumbers := buildNumbers[e.id := e];
      Repr := Repr + {e};
    }

    /** `remove(id)`: drops that key only; an absent id changes nothing. */
    method RemoveBuildNumber(id: int)
      requires Valid()
      modifies this
      ensures Valid() && Repr == old(Repr)
      ensures buildNumbers == old(buildNumbers) - {id}
      ensures id !in old(buildNumbers) ==> buildNumbers == old(buildNumbers)
      ensures settings == old(settings) && lastUpdate == old(lastUpdate)
    {
      buildNumbers := buildNumbers - {id};
    }
  }
}
