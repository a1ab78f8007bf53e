/**
 * `PluginConfigurationServiceDefault`: the registry of shared build numbers.  Every change
 * is followed by a save that rewrites the configuration file from the state in memory.
 * The save time and the formatted date come in as text; the file is the list of lines
 * last written.
 */
module Service {
  import opened Wrappers
  import opened JavaString
  import opened TreeSet
  import opened Entity
  import opened Settings
  import opened Configuration
  import opened Listing
  import opened ConfigFile
  import opened BuildNumberFormat

  /** `numbers` with the counter of `id` moved on by one, when there is such a number. */
  function CounterIncremented(numbers: map<int, SharedBuildNumber>, id: int): map<int, SharedBuildNumber>
  {
    if id in numbers then numbers[id := numbers[id].(counter := numbers[id].counter + 1)] else numbers
  }

  /** Copies of entities of a table are values of the table. */
  lemma CopiesAreValues(table: map<int, SharedBuildNumberEntity>, r: seq<SharedBuildNumber>)
    requires forall x | x in r :: exists e | e in table.Values :: x == e.Value()
    ensures forall x | x in r :: x in ValuesById(table).Values
  {
    forall x | x in r ensures x in ValuesById(table).Values {
      var e :| e in table.Values && x == e.Value();
      var k := KeyOf(table, e);
      assert ValuesById(table)[k] == x;
    }
  }

  /** Every entity of a table that has an equivalent copy has it for its value under its key. */
  lemma CopiesCoverKeys(table: map<int, SharedBuildNumberEntity>, r: seq<SharedBuildNumber>,
                        less: (SharedBuildNumber, SharedBuildNumber) -> bool)
    requires forall e | e in table.Values :: exists x | x in r :: Equivalent(less, x, e.Value())
    ensures forall k | k in ValuesById(table) :: exists x | x in r :: Equivalent(less, x, ValuesById(table)[k])
  {
    forall k | k in ValuesById(table) ensures exists x | x in r :: Equivalent(less, x, ValuesById(table)[k]) {
      assert table[k] in table.Values;
    }
  }

  /** An id-ordered copy of an id-keyed table holds exactly the table's values. */
  lemma ByIdCopyElements(numbers: map<int, SharedBuildNumber>, r: seq<SharedBuildNumber>, descending: bool)
    requires KeyedById(numbers)
    requires forall x | x in r :: x in numbers.Values
    requires forall k | k in numbers :: exists x | x in r :: Equivalent(IdOrder(descending), x, numbers[k])
    ensures forall x :: x in r <==> x in numbers.Values
  {
    IdOrderIsStrict(descending);
    forall x | x in numbers.Values ensures x in r {
      var k := KeyOf(numbers, x);
      var y :| y in r && Equivalent(IdOrder(descending), y, numbers[k]);
      var j := KeyOf(numbers, y);
      assert y == x;
    }
  }

  /** A name-ordered copy of a table of named numbers has, for every stored number, an element with the same name. */
  lemma ByNameCopyCovers(numbers: map<int, SharedBuildNumber>, r: seq<SharedBuildNumber>, descending: bool)
    requires forall k | k in numbers :: numbers[k].name.Str?
    requires forall x | x in r :: x in numbers.Values
    requires forall k | k in numbers :: exists x | x in r :: Equivalent(NameOrder(descending), x, numbers[k])
    ensures forall k | k in numbers :: exists x | x in r :: x.name == numbers[k].name
  {
    forall k | k in numbers ensures exists x | x in r :: x.name == numbers[k].name {
      var x :| x in r && Equivalent(NameOrder(descending), x, numbers[k]);
      var j := KeyOf(numbers, x);
      NameOrderEquivalent(descending, x, numbers[k]);
    }
  }

  /** The name-ordered copy of an entity table, stated over the table's values. */
  lemma ByNameCopyOfTable(table: map<int, SharedBuildNumberEntity>, r: seq<SharedBuildNumber>, descending: bool)
    requires forall k | k in table :: table[k].name.Str?
    requires forall x | x in r :: exists e | e in table.Values :: x == e.Value()
    requires forall e | e in table.Values :: exists x | x in r :: Equivalent(NameOrder(descending), x, e.Value())
    ensures forall x | x in r :: x in ValuesById(table).Values
    ensures forall k | k in ValuesById(table) :: exists x | x in r :: x.name == ValuesById(table)[k].name
  {
    CopiesAreValues(table, r);
    CopiesCoverKeys(table, r, NameOrder(descending));
    ByNameCopyCovers(ValuesById(table), r, descending);
  }

  /** `ids` lists, each once, the keys of the entities of `table` that are no longer in `rest`. */
  predicate IdsListed(ids: seq<int>, rest: set<SharedBuildNumberEntity>, table: map<int, SharedBuildNumberEntity>)
  {
    && (forall j | 0 <= j < |ids| :: ids[j] in table && table[ids[j]] !in rest)
    && (forall k | k in table && table[k] !in rest :: k in ids)
    && (forall j, l | 0 <= j < l < |ids| :: ids[j] != ids[l])
  }

  /** Taking one entity out of `rest` and appending its only key keeps the listing exact. */
  lemma IdsListedStep(ids: seq<int>, rest: set<SharedBuildNumberEntity>, table: map<int, SharedBuildNumberEntity>,
                      e: SharedBuildNumberEntity, id: int)
    requires IdsListed(ids, rest, table)
    requires e in rest && id in table && table[id] == e
    requires forall k | k in table && table[k] == e :: k == id
    ensures IdsListed(ids + [id], rest - {e}, table)
  {
    var ids' := ids + [id];
    forall j, l | 0 <= j < l < |ids'| ensures ids'[j] != ids'[l] {
      if l == |ids| { assert table[ids'[j]] != e; }
    }
  }

  /** The seven setter calls of `saveSharedBuildNumber`: afterwards the entity holds exactly `b`. */
  method CopyInto(entity: SharedBuildNumberEntity, b: SharedBuildNumber)
    modifies entity
    ensures entity.Value() == b
  {
    entity.SetId(b.id);
    entity.SetName(b.name);
    entity.SetDescription(b.description);
    entity.SetFormat(b.format);
    entity.SetDateFormat(b.dateFormat);
    entity.SetIncrementOnceForChain(b.incrementOnceForChain);
    entity.SetCounter(b.counter);
  }

  /** One pass of that loop: the `<build-number>` element, with `<dateFormat>` only when it is set and not blank. */
  method WriteEntry(lines: seq<string>, number: SharedBuildNumber) returns (out: seq<string>)
    ensures out == lines + EntryLines(number)
  {
    out := lines + EntryHead(number);
    if WritesDateFormat(number.dateFormat) {
      out := out + ["\t\t\t<dateFormat>" + number.dateFormat.s + "</dateFormat>"];
    }
    assert out == lines + EntryHead(number) + DateFormatLines(number.dateFormat);
    out := out + EntryTail(number);
  }

  /** The loop of `writeBuildNumbers`: appends each element in order, a blank line between two elements. */
  method WriteEntries(lines: seq<string>, es: seq<SharedBuildNumber>) returns (out: seq<string>)
    ensures out == lines + EntriesBody(es)
  {
    out := lines;
    var i := 0;
    while i < |es|
      invariant 0 <= i <= |es|
      invariant out == lines + EntriesBody(es[..i])
    {
      var number := es[i];
      ghost var body := EntriesBody(es[..i]);
      if i > 0 {
        out := out + [""];
      }
      ghost var separated := out;
      assert separated == lines + (body + if i > 0 then [""] else []);
      out := WriteEntry(out, number);
      AppendBlock(lines, body, if i > 0 then [""] else [], EntryLines(number), separated, out);
      EntriesBodyStep(es, i);
      i := i + 1;
    }
    assert es[..i] == es;
  }

  /** The body of `writeBuildNumbers` once the numbers are in order: the tags around the elements. */
  method WriteBuildNumbersBlock(lines: seq<string>, ordered: seq<SharedBuildNumber>) returns (out: seq<string>)
    ensures out == lines + BuildNumbersLines(ordered)
  {
    out := lines + ["\t<build-numbers>"];
    out := WriteEntries(out, ordered);
    ghost var written := out;
    out := CloseBuildNumbers(out, |ordered| == 0);
    BlockAppended(lines, EntriesBody(ordered), if ordered == [] then [""] else [], written, out);
  }

  /** The end of `writeBuildNumbers`: a blank line when no element was written, then the closing tag. */
  method CloseBuildNumbers(lines: seq<string>, empty: bool) returns (out: seq<string>)
    ensures out == lines + (if empty then [""] else []) + ["\t</build-numbers>", ""]
  {
    out := lines;
    if empty {
      out := out + [""];
    }
    out := out + ["\t</build-numbers>", ""];
  }

  /** The file a save at `timestamp` writes for the id sequence `sequence` and the numbers `numbers`. */
  ghost function FileText(header: seq<string>, timestamp: string, sequence: int, numbers: map<int, SharedBuildNumber>): seq<string>
  {
    ConfigLines(header, timestamp, sequence, AscendingById(numbers))
  }

  class PluginConfigurationServiceDefault {
    /** The first 22 lines of the distributed configuration file, kept as the header of every save. */
    const configFileHeader: seq<string>
    var configuration: ConfigurationEntity
    /** The lines most recently written to the configuration file. */
    var configFile: seq<string>
    ghost var Repr: set<object>

    ghost predicate Valid()
      reads this, Repr
    {
      && this in Repr
      && configuration in Repr
      && configuration.Repr <= Repr
      && this !in configuration.Repr
      && configuration.Valid()
    }

    /** The shared build numbers, by id. */
    function Numbers(): map<int, SharedBuildNumber>
      reads this`configuration, configuration`buildNumbers, configuration.buildNumbers.Values
    {
      ValuesById(configuration.buildNumbers)
    }

    /** The id the next new shared build number will get. */
    function Sequence(): int
      reads this`configuration, configuration`settings, configuration.settings
    {
      configuration.settings.buildNumberIdSequence
    }

    /** The file a save at `timestamp` writes for the current state. */
    ghost function SavedFile(timestamp: string): seq<string>
      reads this`configuration, configuration`settings, configuration`buildNumbers
      reads configuration.settings, configuration.buildNumbers.Values
    {
      FileText(configFileHeader, timestamp, Sequence(), Numbers())
    }

    /** The service after `initialize()` has loaded `configuration` and cached `header`. */
    constructor (header: seq<string>, configuration: ConfigurationEntity)
      requires configuration.Valid()
      ensures Valid() && Repr == {this} + configuration.Repr
      ensures configFileHeader == header && this.configuration == configuration && configFile == []
    {
      configFileHeader := header;
      this.configuration := configuration;
      configFile := [];
      Repr := {this} + configuration.Repr;
    }

    /** Every stored value carries its own id. */
    lemma NumbersKeyedById()
      requires Valid()
      ensures KeyedById(Numbers())
      ensures |Numbers().Values| == |Numbers()|
    {
      var m := Numbers();
      forall a, b | a in m && b in m && a != b ensures m[a] != m[b] {
        assert m[a].id == a && m[b].id == b;
      }
      InjectiveValuesCard(m);
    }

    /** `getNextBuildNumberId`: hands out the sequence value, moves the sequence on by one and saves. */
    method GetNextBuildNumberId(timestamp: string) returns (id: int)
      requires Valid()
      modifies Repr
      ensures Valid() && Repr == old(Repr) && configuration == old(configuration)
      ensures id == old(Sequence()) && Sequence() == id + 1
      ensures Numbers() == old(Numbers())
      ensures configFile == SavedFile(timestamp)
    {
      id := configuration.settings.GetAndIncrementBuildNumberIdSequence();
      SaveConfiguration(timestamp);
    }

    /** `getAllSharedBuildNumberIds`: the stored ids, each exactly once, in table order. */
    method GetAllSharedBuildNumberIds() returns (ids: array<int>)
      requires Valid()
      ensures fresh(ids)
      ensures ids.Length == |Numbers()|
      ensures forall i, j | 0 <= i < j < ids.Length :: ids[i] != ids[j]
      ensures forall k :: k in Numbers() <==> k in ids[..]
    {
      var buildNumbers := configuration.GetBuildNumbers();
      ids := new int[|buildNumbers|];
      var table := configuration.buildNumbers;
      var i := 0;
      var rest := buildNumbers;
      while rest != {}
        invariant rest <= buildNumbers
        invariant i + |rest| == |buildNumbers| == ids.Length
        invariant IdsListed(ids[..i], rest, table)
        decreases rest
      {
        var e :| e in rest;
        assert forall k | k in table && table[k] == e :: k == e.id;
        IdsListedStep(ids[..i], rest, table, e, e.id);
        ids[i] := e.id;
        assert ids[..i + 1] == ids[..i] + [e.id];
        i := i + 1;
        rest := rest - {e};
      }
      assert ids[..] == ids[..i];
      assert Numbers().Keys == table.Keys;
    }

    /** `getTranslatedSet`: copies each entity into a `TreeSet` ordered by `less`. */
    method GetTranslatedSet(buildNumbers: set<SharedBuildNumberEntity>, less: (SharedBuildNumber, SharedBuildNumber) -> bool)
      returns (r: seq<SharedBuildNumber>)
      requires StrictOrder(less)
      ensures Sorted(r, less)
      ensures forall x | x in r :: exists e | e in buildNumbers :: x == e.Value()
      ensures forall e | e in buildNumbers :: exists x | x in r :: Equivalent(less, x, e.Value())
    {
      r := [];
      var rest := buildNumbers;
      while rest != {}
        invariant rest <= buildNumbers
        invariant Sorted(r, less)
        invariant forall x | x in r :: exists e | e in buildNumbers - rest :: x == e.Value()
        invariant forall e | e in buildNumbers - rest :: exists x | x in r :: Equivalent(less, x, e.Value())
        decreases rest
      {
        var e :| e in rest;
        var v := e.Value();
        AddSorted(r, v, less);
        var added := Add(r, v, less);
        assert exists x | x in added :: Equivalent(less, x, v) by {
          if added == r {
            var i :| 0 <= i < |r| && Equivalent(less, r[i], v);
            assert r[i] in added;
          } else {
            assert v in added && Equivalent(less, v, v);
          }
        }
        assert forall y | y in r :: y in added;
        r, rest := added, rest - {e};
      }
      assert buildNumbers - rest == buildNumbers;
    }

    /** `getAllSharedBuildNumbersSortedById`: every stored value once, strictly by id, reversed when `descending`. */
    method SortedById(descending: bool) returns (r: seq<SharedBuildNumber>)
      requires Valid()
      ensures Sorted(r, IdOrder(descending))
      ensures forall x :: x in r <==> x in Numbers().Values
      ensures |r| == |Numbers()|
      ensures !descending ==> r == AscendingById(Numbers())
    {
      var buildNumbers := configuration.GetBuildNumbers();
      IdOrderIsStrict(descending);
      r := GetTranslatedSet(buildNumbers, IdOrder(descending));
      CopiesAreValues(configuration.buildNumbers, r);
      CopiesCoverKeys(configuration.buildNumbers, r, IdOrder(descending));
      NumbersKeyedById();
      ByIdCopyElements(Numbers(), r, descending);
      ListingSize(r, Numbers(), IdOrder(descending));
      if !descending {
        AscendingByIdSorted(Numbers());
        SortedUnique(r, AscendingById(Numbers()), IdOrder(false));
      }
    }

    /**
     * `getAllSharedBuildNumbersSortedByName`: sorted by `String.compareTo` (reversed when
     * `descending`); of several numbers with the same name only one is listed.
     */
    method SortedByName(descending: bool) returns (r: seq<SharedBuildNumber>)
      requires Valid()
      requires forall k | k in Numbers() :: Numbers()[k].name.Str?
      ensures Sorted(r, NameOrder(descending))
      ensures forall x | x in r :: x in Numbers().Values
      ensures forall k | k in Numbers() :: exists x | x in r :: x.name == Numbers()[k].name
      ensures forall i, j | 0 <= i < j < |r| :: r[i].name != r[j].name
    {
      assert forall k | k in configuration.buildNumbers :: configuration.buildNumbers[k].name.Str? by {
        forall k | k in configuration.buildNumbers ensures configuration.buildNumbers[k].name.Str? {
          assert Numbers()[k].name.Str?;
        }
      }
      var buildNumbers := configuration.GetBuildNumbers();
      NameOrderIsStrict(descending);
      r := GetTranslatedSet(buildNumbers, NameOrder(descending));
      ByNameCopyOfTable(configuration.buildNumbers, r, descending);
      NameSortedDistinct(r, descending);
    }

    /** `getSharedBuildNumber`: a copy of the stored number, or null when the id is unknown. */
    method GetSharedBuildNumber(id: int) returns (r: Option<SharedBuildNumber>)
      requires Valid()
      ensures r.Some? <==> id in Numbers()
      ensures r.Some? ==> r.value == Numbers()[id] && r.value.id == id
    {
      var entity := configuration.GetBuildNumber(id);
      r := if entity == null then None else Some(entity.Value());
    }

    /** `getSharedBuildNumberName`: the stored name, or the empty string when the id is unknown. */
    method GetSharedBuildNumberName(id: int) returns (name: NString)
      requires Valid()
      ensures id in Numbers() ==> name == Numbers()[id].name
      ensures id !in Numbers() ==> name == Str("")
    {
      var entity := configuration.GetBuildNumber(id);
      name := if entity == null then Str("") else entity.name;
    }

    /** `deleteSharedBuildNumber`: removes that id, leaves every other number as it was, and saves. */
    method DeleteSharedBuildNumber(id: int, timestamp: string)
      requires Valid()
      modifies Repr
      ensures Valid() && Repr == old(Repr) && configuration == old(configuration)
      ensures Numbers() == old(Numbers()) - {id}
      ensures Sequence() == old(Sequence())
      ensures configFile == SavedFile(timestamp)
    {
      ghost var table := configuration.buildNumbers;
      configuration.RemoveBuildNumber(id);
      ValuesByIdRemove(table, id);
      assert Numbers() == old(Numbers()) - {id};
      SaveConfiguration(timestamp);
    }

    /**
     * `getAndIncrementFormattedSharedBuildNumber`: an unknown id gives null and changes
     * nothing; otherwise the counter moves on by one and the state is saved, and then the
     * number is built from the format and the counter as it was before.  Building it throws
     * (`thrown`, after the save) for a null format, and for a number that needs the date when
     * the date format is null or `now` rejects it; `now` is asked only when the date is needed.
     */
    method GetAndIncrementFormattedSharedBuildNumber(id: int, timestamp: string, now: DateFormatter)
      returns (number: NString, thrown: bool)
      requires Valid()
      modifies Repr
      ensures Valid() && Repr == old(Repr) && configuration == old(configuration)
      ensures Sequence() == old(Sequence())
      ensures id !in old(Numbers()) ==>
        number == Null && !thrown && Numbers() == old(Numbers()) && configFile == old(configFile) && unchanged(Repr)
      ensures id in old(Numbers()) ==>
        var b := old(Numbers())[id];
        var text := BuildNumberText(b.format, b.counter, b.dateFormat, now);
        && thrown == text.None?
        && number == (if thrown then Null else Str(text.value))
        && Numbers() == CounterIncremented(old(Numbers()), id)
        && configFile == SavedFile(timestamp)
    {
      var buildNumber := configuration.GetBuildNumber(id);
      if buildNumber == null {
        return Null, false;
      }
      ghost var b := old(Numbers())[id];
      var counter := IncrementAndSave(buildNumber, id, timestamp);
      var text := BuildNumberText(buildNumber.format, counter, buildNumber.dateFormat, now);
      thrown := text.None?;
      number := if thrown then Null else Str(text.value);
    }

    /** The counter of the number filed under `id` moves on by one, and the state is saved. */
    method IncrementAndSave(buildNumber: SharedBuildNumberEntity, ghost id: int, timestamp: string) returns (counter: int)
      requires Valid() && id in configuration.buildNumbers && configuration.buildNumbers[id] == buildNumber
      modifies Repr
      ensures Valid() && Repr == old(Repr) && configuration == old(configuration)
      ensures Sequence() == old(Sequence())
      ensures counter == old(Numbers())[id].counter
      ensures buildNumber.Value() == old(buildNumber.Value()).(counter := counter + 1)
      ensures Numbers() == CounterIncremented(old(Numbers()), id)
      ensures configFile == SavedFile(timestamp)
    {
      ghost var b := buildNumber.Value();
      assert b == old(Numbers())[id];
      var table := configuration.buildNumbers;
      assert forall k | k in table && k != id :: table[k] != buildNumber;
      counter := buildNumber.GetAndIncrementCounter();
      ghost var sequence := Sequence();
      assert sequence == old(Sequence());
      ghost var after := CounterIncremented(old(Numbers()), id);
      assert configuration.Numbers() == after;
      ghost var value := buildNumber.Value();
      SaveConfiguration(timestamp);
      assert Numbers() == after && Sequence() == sequence && buildNumber.Value() == value;
    }

    /**
     * `saveSharedBuildNumber`: refused, with nothing changed, when the stored counter (1 for a
     * new id) is above the new one; otherwise the number is stored as given and the state saved.
     */
    method SaveSharedBuildNumber(b: SharedBuildNumber, timestamp: string) returns (accepted: bool)
      requires Valid()
      modifies Repr
      ensures Valid() && fresh(Repr - old(Repr)) && configuration == old(configuration)
      ensures Sequence() == old(Sequence())
      ensures accepted <==> (if b.id in old(Numbers()) then old(Numbers())[b.id].counter else 1) <= b.counter
      ensures !accepted ==> Numbers() == old(Numbers()) && configFile == old(configFile)
      ensures accepted ==> Numbers() == old(Numbers())[b.id := b] && configFile == SavedFile(timestamp)
    {
      var entity := EntityFor(b.id);
      if entity.counter > b.counter {
        return false;
      }
      StoreSharedBuildNumber(entity, b, timestamp);
      accepted := true;
    }

    /** The stored entity for `id`, or a new entity (counter 1) when there is none. */
    method EntityFor(id: int) returns (entity: SharedBuildNumberEntity)
      requires Valid()
      ensures id in configuration.buildNumbers ==> entity == configuration.buildNumbers[id]
      ensures id !in configuration.buildNumbers ==> fresh(entity) && entity.counter == 1
    {
      var stored := configuration.GetBuildNumber(id);
      if stored == null {
        entity := new SharedBuildNumberEntity();
      } else {
        entity := stored;
      }
    }

    /**
     * The part of `saveSharedBuildNumber` after the counter check: `entity` is the stored
     * entity for that id, or a new one when there is none.  Its fields are overwritten with
     * the given values, it is filed under its id, and the state is saved.
     */
    method StoreSharedBuildNumber(entity: SharedBuildNumberEntity, b: SharedBuildNumber, timestamp: string)
      requires Valid()
      requires b.id in configuration.buildNumbers ==> configuration.buildNumbers[b.id] == entity
      requires b.id !in configuration.buildNumbers ==> entity !in Repr
      modifies Repr, entity
      ensures Valid() && Repr == old(Repr) + {entity} && configuration == old(configuration)
      ensures Sequence() == old(Sequence())
      ensures Numbers() == old(Numbers())[b.id := b] && configFile == SavedFile(timestamp)
    {
      ghost var before, sequence := Numbers(), Sequence();
      assert before == old(Numbers()) && sequence == old(Sequence());
      Repr := Repr + {entity};
      var table := configuration.buildNumbers;
      assert forall k | k in table && k != b.id :: table[k] != entity;
      CopyInto(entity, b);
      assert configuration == old(configuration) && Repr == old(Repr) + {entity};
      assert Sequence() == sequence;
      assert forall k | k in table && k != b.id :: table[k].Value() == before[k];
      ValuesByIdWrite(table, b.id, entity, before);
      configuration.AddOrUpdateBuildNumber(entity);
      assert configuration == old(configuration) && Repr == old(Repr) + {entity};
      assert Valid();
      ghost var written := Numbers();
      assert written == configuration.Numbers() == before[b.id := b];
      assert Sequence() == sequence;
      SaveConfiguration(timestamp);
      assert Numbers() == written && Sequence() == sequence;
    }

    /** `saveConfiguration`: stamps the configuration with the save time and rewrites the file. */
    method SaveConfiguration(timestamp: string)
      requires Valid()
      modifies this, configuration
      ensures Valid() && Repr == old(Repr) && configuration == old(configuration)
      ensures configuration.lastUpdate == Str(timestamp)
      ensures Numbers() == old(Numbers()) && Sequence() == old(Sequence())
      ensures configFile == SavedFile(timestamp)
    {
      configuration.SetLastUpdate(Str(timestamp));
      assert Numbers() == old(Numbers()) && Sequence() == old(Sequence());
      var lines := ConfigurationLines(timestamp);
      WriteLines(lines);
    }

    /** `FileUtils.writeLines`: the file now holds `lines`, and the configuration is as it was. */
    method WriteLines(lines: seq<string>)
      modifies this`configFile
      ensures configFile == lines
      ensures Numbers() == old(Numbers()) && Sequence() == old(Sequence())
    {
      configFile := lines;
    }

    /** The list of lines `saveConfiguration` builds before writing it out. */
    method ConfigurationLines(timestamp: string) returns (lines: seq<string>)
      requires Valid()
      ensures lines == SavedFile(timestamp)
    {
      lines := configFileHeader + [""];
      lines := lines + ["\t<last-update>" + timestamp + "</last-update>", ""];
      assert lines == configFileHeader + ["", "\t<last-update>" + timestamp + "</last-update>", ""];
      lines := WriteSettings(lines);
      lines := WriteBuildNumbers(lines);
      lines := lines + ["</shared-build-number-config>", ""];
    }

    /** `writeSettings`: appends the settings block with the current sequence value. */
    method WriteSettings(lines: seq<string>) returns (out: seq<string>)
      requires Valid()
      ensures out == lines + SettingsLines(Sequence())
    {
      var next := configuration.settings.GetBuildNumberIdSequence();
      out := lines + ["\t<settings>"];
      out := out + ["\t\t<buildNumberIdSequence>" + IntToString(next) + "</buildNumberIdSequence>"];
      out := out + ["\t</settings>"];
      out := out + [""];
    }

    /** `writeBuildNumbers`: appends the build numbers in ascending id order, one element each. */
    method WriteBuildNumbers(lines: seq<string>) returns (out: seq<string>)
      requires Valid()
      ensures out == lines + BuildNumbersLines(AscendingById(Numbers()))
    {
      var ordered := SortedById(false);
      out := WriteBuildNumbersBlock(lines, ordered);
    }
  }
}
