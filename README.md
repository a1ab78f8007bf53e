# Shared build numbers and Linux system properties, in Dafny

A model of the core of two TeamCity plugins.

**SharedBuildNumber** keeps a table of named build-number counters that any number of build
configurations can share. It has four parts:

- **The registry.** `PluginConfigurationServiceDefault` sits over `ConfigurationEntity`,
  `SettingsEntity` and `SharedBuildNumberEntity`. It hands out ids from a sequence, lists
  the numbers by id or by name, looks them up, deletes and saves them, and increments a
  number while formatting it. After every change it rewrites its XML configuration file
  line by line.
- **The administration page.** `SharedBuildNumberController` checks access, routes the
  `action` parameter, reads and validates the add/edit form, and calls the registry.
- **The parameter provider.** `BuildNumberPropertiesProvider` publishes one
  `sharedBuildNumber.id<N>` parameter per number and describes it. When a build starts, it
  gives every referenced parameter the next formatted number.
- **`SharedBuildNumber`.** This is the value object the service hands out. It is modelled
  as a datatype with its seven fields. A fresh one has null strings,
  `incrementOnceForChain` false and counter 1.

**LinuxSystemProperties** fills a property table with the plugin version and, on Linux,
three keys: the distribution flavour, name and version. It takes them from the first
release file it can read, trying SuSE, then RedHat, then Debian.

Where the source changes objects in place, the model does the same:

- The entities, the service, the provider's build context and the Linux property map are
  classes with `modifies` frames.
- Each state-changing method's `ensures` relates the new state to the old one through
  specification functions, such as `Numbers()`, `Sequence()`, `SavedFile(timestamp)`,
  `Incremented`, `SuseProperties` and `LocateFrom`.
- Lemmas state what the source promises about those functions.

Loops become `while`/`for` loops with their invariants. These are the id array, the
TreeSet fills, the line writer, the increment loop over the plugin parameters and the
flavour loop.

The model's inputs stand in for the host, the clock and the file system:

- The clock and date formatting become a `timestamp` string and a `now` function from a
  date pattern to the formatted time, or to none for a pattern `SimpleDateFormat` refuses.
- The configuration file is the list of lines last written (`configFile`).
- A Linux host is a value holding `os.name` and what each release file yields (missing,
  unreadable, or its lines).
- The RedHat regular expression is a function parameter.

| module | file | source |
|---|---|---|
| `Wrappers`, `JavaString` | wrappers.dfy, java_string.dfy | `Option`, nullable strings and the `java.lang.String` operations the code calls (`trim`, `startsWith`, `toLowerCase`, `replace`, `split("=", 2)`, `Integer.toString`, `NumberUtils.isDigits`, and `length` and `compareTo` over UTF-16 code units) |
| `Entity`, `Settings`, `Configuration` | entity.dfy, settings.dfy, configuration.dfy | the three entity classes and the `SharedBuildNumber` value |
| `TreeSet`, `Listing` | tree_set.dfy, listing.dfy | `TreeSet.add` under a comparator, and the two listing comparators |
| `ConfigFile`, `BuildNumberFormat`, `Service` | config_file.dfy, build_number_format.dfy, service.dfy | the configuration file layout, the `{0}`/`{d}` substitution and the service |
| `Controller` | controller.dfy | the administration page |
| `Provider` | provider.dfy | the parameter provider |
| `LinuxLocator` | linux.dfy | the Linux locator and its abstract base class |

## Model

| member | source | states |
|---|---|---|
| Entity.SharedBuildNumberEntity.constructor | SharedBuildNumber/source/production/java/net/nicholaswilliams/java/teamcity/plugin/buildNumber/pojo/SharedBuildNumberEntity.java:30-44 | a new entity has id 0, null strings, `incrementOnceForChain` false and counter 1 |
| Entity.SharedBuildNumberEntity.SetId | SharedBuildNumber/source/production/java/net/nicholaswilliams/java/teamcity/plugin/buildNumber/pojo/SharedBuildNumberEntity.java:51-54 | only the id changes |
| Entity.SharedBuildNumberEntity.SetName | SharedBuildNumber/source/production/java/net/nicholaswilliams/java/teamcity/plugin/buildNumber/pojo/SharedBuildNumberEntity.java:61-64 | only the name changes |
| Entity.SharedBuildNumberEntity.SetDescription | SharedBuildNumber/source/production/java/net/nicholaswilliams/java/teamcity/plugin/buildNumber/pojo/SharedBuildNumberEntity.java:71-74 | only the description changes |
| Entity.SharedBuildNumberEntity.SetFormat | SharedBuildNumber/source/production/java/net/nicholaswilliams/java/teamcity/plugin/buildNumber/pojo/SharedBuildNumberEntity.java:81-84 | only the format changes |
| Entity.SharedBuildNumberEntity.SetDateFormat | SharedBuildNumber/source/production/java/net/nicholaswilliams/java/teamcity/plugin/buildNumber/pojo/SharedBuildNumberEntity.java:91-94 | only the date format changes |
| Entity.SharedBuildNumberEntity.SetIncrementOnceForChain | SharedBuildNumber/source/production/java/net/nicholaswilliams/java/teamcity/plugin/buildNumber/pojo/SharedBuildNumberEntity.java:101-104 | only the chain flag changes |
| Entity.SharedBuildNumberEntity.SetCounter | SharedBuildNumber/source/production/java/net/nicholaswilliams/java/teamcity/plugin/buildNumber/pojo/SharedBuildNumberEntity.java:111-114 | only the counter changes, to the given value |
| Entity.SharedBuildNumberEntity.GetAndIncrementCounter | SharedBuildNumber/source/production/java/net/nicholaswilliams/java/teamcity/plugin/buildNumber/pojo/SharedBuildNumberEntity.java:116-119 | returns the old counter and leaves it one higher; the other fields are kept |
| Settings.SettingsEntity.constructor | SharedBuildNumber/source/production/java/net/nicholaswilliams/java/teamcity/plugin/buildNumber/pojo/SettingsEntity.java:32 | the id sequence starts at 1 |
| Settings.SettingsEntity.GetBuildNumberIdSequence | SharedBuildNumber/source/production/java/net/nicholaswilliams/java/teamcity/plugin/buildNumber/pojo/SettingsEntity.java:34-37 | returns the sequence and changes nothing |
| Settings.SettingsEntity.SetBuildNumberIdSequence | SharedBuildNumber/source/production/java/net/nicholaswilliams/java/teamcity/plugin/buildNumber/pojo/SettingsEntity.java:39-42 | the sequence afterwards is the value set |
| Settings.SettingsEntity.GetAndIncrementBuildNumberIdSequence | SharedBuildNumber/source/production/java/net/nicholaswilliams/java/teamcity/plugin/buildNumber/pojo/SettingsEntity.java:44-47 | returns the old sequence value and leaves it one higher |
| Configuration.ConfigurationEntity.constructor | SharedBuildNumber/source/production/java/net/nicholaswilliams/java/teamcity/plugin/buildNumber/pojo/ConfigurationEntity.java:34-40 | no last update, the given settings, an empty table |
| Configuration.ConfigurationEntity.SetLastUpdate | SharedBuildNumber/source/production/java/net/nicholaswilliams/java/teamcity/plugin/buildNumber/pojo/ConfigurationEntity.java:47-50 | only the last-update stamp changes |
| Configuration.ConfigurationEntity.GetBuildNumber | SharedBuildNumber/source/production/java/net/nicholaswilliams/java/teamcity/plugin/buildNumber/pojo/ConfigurationEntity.java:67-70 | the entity filed under the id (and that entity carries the id), or null for an id not in the table |
| Configuration.ConfigurationEntity.GetBuildNumbers | SharedBuildNumber/source/production/java/net/nicholaswilliams/java/teamcity/plugin/buildNumber/pojo/ConfigurationEntity.java:62-65 | the stored entities, one per id: as many as the table has keys |
| Configuration.ConfigurationEntity.AddOrUpdateBuildNumber | SharedBuildNumber/source/production/java/net/nicholaswilliams/java/teamcity/plugin/buildNumber/pojo/ConfigurationEntity.java:72-75 | the entity is filed under its id, replacing an entry with that id (size unchanged) or adding one (size one larger); no other entry changes |
| Configuration.ConfigurationEntity.RemoveBuildNumber | SharedBuildNumber/source/production/java/net/nicholaswilliams/java/teamcity/plugin/buildNumber/pojo/ConfigurationEntity.java:77-80 | exactly that id is removed; an absent id leaves the table as it was |
| Configuration.InjectiveValuesCard | SharedBuildNumber/source/production/java/net/nicholaswilliams/java/teamcity/plugin/buildNumber/pojo/ConfigurationEntity.java:40 | a table whose entries are distinct objects has as many values as keys |
| Configuration.ValuesByIdRemove | SharedBuildNumber/source/production/java/net/nicholaswilliams/java/teamcity/plugin/buildNumber/pojo/ConfigurationEntity.java:77-80 | the values seen through the table after a removal are the old values without that id |
| Configuration.ValuesByIdWrite | SharedBuildNumber/source/production/java/net/nicholaswilliams/java/teamcity/plugin/buildNumber/pojo/ConfigurationEntity.java:72-75 | filing an entity under an id changes the values seen through the table at that id only |
| TreeSet.Add | SharedBuildNumber/source/production/java/net/nicholaswilliams/java/teamcity/plugin/buildNumber/PluginConfigurationServiceDefault.java:219-220 | `TreeSet.add`: the set is unchanged when an element equal under the comparator is already there, otherwise it gains exactly the new element |
| TreeSet.AddSorted | SharedBuildNumber/source/production/java/net/nicholaswilliams/java/teamcity/plugin/buildNumber/PluginConfigurationServiceDefault.java:217-222 | adding to a set sorted under a strict order keeps it sorted |
| TreeSet.AddEquivalentUnchanged | SharedBuildNumber/source/production/java/net/nicholaswilliams/java/teamcity/plugin/buildNumber/PluginConfigurationServiceDefault.java:219-220 | adding to a sorted set that already holds an element comparing equal leaves it unchanged |
| TreeSet.SortedUnique | SharedBuildNumber/source/production/java/net/nicholaswilliams/java/teamcity/plugin/buildNumber/PluginConfigurationServiceDefault.java:214-223 | two sorted sequences with the same elements are equal, so the set built does not depend on the order of insertion |
| TreeSet.SortedCard | SharedBuildNumber/source/production/java/net/nicholaswilliams/java/teamcity/plugin/buildNumber/PluginConfigurationServiceDefault.java:214-223 | a sorted set has no duplicates |
| TreeSet.FirstIsLeast | SharedBuildNumber/source/production/java/net/nicholaswilliams/java/teamcity/plugin/buildNumber/PluginConfigurationServiceDefault.java:214-223 | the first element of a sorted set comes before every other one |
| Listing.IdOrderIsStrict | SharedBuildNumber/source/production/java/net/nicholaswilliams/java/teamcity/plugin/buildNumber/PluginConfigurationServiceDefault.java:164-173 | the id comparator, either way round, is a strict order under which two numbers are equal exactly when their ids are |
| Listing.NameOrderIsStrict | SharedBuildNumber/source/production/java/net/nicholaswilliams/java/teamcity/plugin/buildNumber/PluginConfigurationServiceDefault.java:196-205 | the name comparator (`String.compareTo`, reversed when descending) is a strict order |
| Listing.NameOrderEquivalent | SharedBuildNumber/source/production/java/net/nicholaswilliams/java/teamcity/plugin/buildNumber/PluginConfigurationServiceDefault.java:196-205 | for non-null names, two numbers compare equal exactly when their names are equal |
| Listing.NameSortedDistinct | SharedBuildNumber/source/production/java/net/nicholaswilliams/java/teamcity/plugin/buildNumber/PluginConfigurationServiceDefault.java:184-212 | in a by-name listing no two numbers share a name: equal names collapse into one element |
| Listing.AscendingById | SharedBuildNumber/source/production/java/net/nicholaswilliams/java/teamcity/plugin/buildNumber/PluginConfigurationServiceDefault.java:595-610 | the ascending-id order of the table: as many elements as entries, and exactly the stored values |
| Listing.AscendingByIdSorted | SharedBuildNumber/source/production/java/net/nicholaswilliams/java/teamcity/plugin/buildNumber/PluginConfigurationServiceDefault.java:595-610 | that order is sorted by the ascending id comparator |
| Listing.ListingSize | SharedBuildNumber/source/production/java/net/nicholaswilliams/java/teamcity/plugin/buildNumber/PluginConfigurationServiceDefault.java:150-180 | a sorted listing holding exactly the values of an id-keyed table has one element per entry |
| JavaString.TrimKeeps | SharedBuildNumber/source/production/java/net/nicholaswilliams/java/teamcity/plugin/buildNumber/PluginConfigurationServiceDefault.java:624 | `trim` leaves a string that neither starts nor ends with white space as it is |
| JavaString.TrimIdempotent | SharedBuildNumber/source/production/java/net/nicholaswilliams/java/teamcity/plugin/buildNumber/SharedBuildNumberController.java:109-113 | trimming twice is trimming once |
| JavaString.ReplaceAbsent | SharedBuildNumber/source/production/java/net/nicholaswilliams/java/teamcity/plugin/buildNumber/PluginConfigurationServiceDefault.java:295 | `replace` with a target that does not occur changes nothing |
| JavaString.ReplaceAfterPlainText | SharedBuildNumber/source/production/java/net/nicholaswilliams/java/teamcity/plugin/buildNumber/PluginConfigurationServiceDefault.java:295 | `replace` passes over text before the first occurrence and substitutes it |
| JavaString.NatToStringRoundTrip | SharedBuildNumber/source/production/java/net/nicholaswilliams/java/teamcity/plugin/buildNumber/SharedBuildNumberController.java:313-316 | `Integer.parseInt` reads back the decimal text `Integer.toString` writes for a non-negative number |
| JavaString.IntToStringInjective | SharedBuildNumber/source/production/java/net/nicholaswilliams/java/teamcity/plugin/buildNumber/PluginConfigurationServiceDefault.java:295 | different counters have different decimal texts |
| JavaString.SplitOnce | LinuxSystemProperties/source/production/java/net/nicholaswilliams/java/teamcity/plugin/linux/LinuxPropertiesLocatorDefault.java:122 | `split("=", 2)`: one part (the whole line) when there is no `=`, otherwise the text before the first `=` and everything after it |
| JavaString.LengthBounds | SharedBuildNumber/source/production/java/net/nicholaswilliams/java/teamcity/plugin/buildNumber/SharedBuildNumberController.java:325-331 | `length()` counts UTF-16 code units: between the number of characters and twice it, and equal to it when no character lies above U+FFFF |
| JavaString.Utf16Injective | SharedBuildNumber/source/production/java/net/nicholaswilliams/java/teamcity/plugin/buildNumber/PluginConfigurationServiceDefault.java:204 | two strings with the same UTF-16 code units are the same string |
| JavaString.StrLessTransitive | SharedBuildNumber/source/production/java/net/nicholaswilliams/java/teamcity/plugin/buildNumber/PluginConfigurationServiceDefault.java:204 | `String.compareTo` order, lexicographic on UTF-16 code units, is transitive |
| JavaString.StrLessTotal | SharedBuildNumber/source/production/java/net/nicholaswilliams/java/teamcity/plugin/buildNumber/PluginConfigurationServiceDefault.java:204 | two strings neither of which comes before the other under the UTF-16 code-unit order are equal |
| JavaString.SurrogateSortsFirst | SharedBuildNumber/source/production/java/net/nicholaswilliams/java/teamcity/plugin/buildNumber/PluginConfigurationServiceDefault.java:204 | U+10000 sorts before U+FFFF, since `compareTo` compares its high surrogate 0xD800 |
| BuildNumberFormat.FormatWithoutPlaceholders | SharedBuildNumber/source/production/java/net/nicholaswilliams/java/teamcity/plugin/buildNumber/PluginConfigurationServiceDefault.java:295-303 | a format with no brace comes back unchanged |
| BuildNumberFormat.FormatTrailingCounter | SharedBuildNumber/source/production/java/net/nicholaswilliams/java/teamcity/plugin/buildNumber/PluginConfigurationServiceDefault.java:295 | a trailing `{0}` becomes the counter in decimal |
| BuildNumberFormat.FormatDistinctCounters | SharedBuildNumber/source/production/java/net/nicholaswilliams/java/teamcity/plugin/buildNumber/PluginConfigurationServiceDefault.java:295 | with a trailing `{0}`, different counters give different build numbers |
| BuildNumberFormat.FormatTrailingDate | SharedBuildNumber/source/production/java/net/nicholaswilliams/java/teamcity/plugin/buildNumber/PluginConfigurationServiceDefault.java:297-300 | a trailing `{d}` becomes the formatted date |
| BuildNumberFormat.BuildNumberTextThrows | SharedBuildNumber/source/production/java/net/nicholaswilliams/java/teamcity/plugin/buildNumber/PluginConfigurationServiceDefault.java:295-303 | the text throws exactly when the format is null, or the substituted format holds `{d}` in any case and the date format is null or not a valid pattern; without `{d}` the text does not depend on the date, and with a valid pattern it is the format with that date |
| BuildNumberFormat.PlainFormatNeverThrows | SharedBuildNumber/source/production/java/net/nicholaswilliams/java/teamcity/plugin/buildNumber/PluginConfigurationServiceDefault.java:295-303 | a format without placeholders is the number itself, even under a null or invalid date format |
| BuildNumberFormat.TrailingDateNeedsPattern | SharedBuildNumber/source/production/java/net/nicholaswilliams/java/teamcity/plugin/buildNumber/PluginConfigurationServiceDefault.java:297-300 | `prefix{d}` throws when its date format is null or not a valid pattern |
| BuildNumberFormat.DateNeededAfterPrefix | SharedBuildNumber/source/production/java/net/nicholaswilliams/java/teamcity/plugin/buildNumber/PluginConfigurationServiceDefault.java:295-297 | `prefix{d}` has no `{0}` to replace and needs the date |
| ConfigFile.EntriesBodyStep | SharedBuildNumber/source/production/java/net/nicholaswilliams/java/teamcity/plugin/buildNumber/PluginConfigurationServiceDefault.java:610-629 | each loop pass appends a blank separator (after the first entry) and the entry's lines |
| ConfigFile.EntryLinesShape | SharedBuildNumber/source/production/java/net/nicholaswilliams/java/teamcity/plugin/buildNumber/PluginConfigurationServiceDefault.java:616-628 | an entry is 6 lines, plus the `<dateFormat>` line when the date format is non-null and not blank, and none of them is blank |
| ConfigFile.EntriesBodyLayout | SharedBuildNumber/source/production/java/net/nicholaswilliams/java/teamcity/plugin/buildNumber/PluginConfigurationServiceDefault.java:610-629 | consecutive entries are separated by exactly one blank line, and the body is the entries' lines plus those separators |
| ConfigFile.SettingsLinesInjective | SharedBuildNumber/source/production/java/net/nicholaswilliams/java/teamcity/plugin/buildNumber/PluginConfigurationServiceDefault.java:581-588 | the settings block determines the id sequence it was written for |
| ConfigFile.NoBlankLines | SharedBuildNumber/source/production/java/net/nicholaswilliams/java/teamcity/plugin/buildNumber/PluginConfigurationServiceDefault.java:616-628 | lines that are all non-empty contain no blank line |
| Service.PluginConfigurationServiceDefault.constructor | SharedBuildNumber/source/production/java/net/nicholaswilliams/java/teamcity/plugin/buildNumber/PluginConfigurationServiceDefault.java:377-407 | the service over a loaded configuration, with its cached header and nothing written yet |
| Service.PluginConfigurationServiceDefault.NumbersKeyedById | SharedBuildNumber/source/production/java/net/nicholaswilliams/java/teamcity/plugin/buildNumber/pojo/ConfigurationEntity.java:72-75 | every stored number is filed under its own id, and different ids hold different numbers |
| Service.PluginConfigurationServiceDefault.GetNextBuildNumberId | SharedBuildNumber/source/production/java/net/nicholaswilliams/java/teamcity/plugin/buildNumber/PluginConfigurationServiceDefault.java:104-126 | returns the current sequence value and leaves the sequence one higher; the numbers are untouched and the file is rewritten |
| Service.PluginConfigurationServiceDefault.GetAllSharedBuildNumberIds | SharedBuildNumber/source/production/java/net/nicholaswilliams/java/teamcity/plugin/buildNumber/PluginConfigurationServiceDefault.java:130-148 | a fresh array holding each stored id exactly once, as long as the table |
| Service.PluginConfigurationServiceDefault.GetTranslatedSet | SharedBuildNumber/source/production/java/net/nicholaswilliams/java/teamcity/plugin/buildNumber/PluginConfigurationServiceDefault.java:214-223 | a set sorted by the comparator, each element a copy of a stored entity, and each entity represented by an element equal to it under the comparator |
| Service.PluginConfigurationServiceDefault.SortedById | SharedBuildNumber/source/production/java/net/nicholaswilliams/java/teamcity/plugin/buildNumber/PluginConfigurationServiceDefault.java:152-180 | strictly ascending or descending by id, exactly the stored numbers, one per entry; ascending it is the file order |
| Service.PluginConfigurationServiceDefault.SortedByName | SharedBuildNumber/source/production/java/net/nicholaswilliams/java/teamcity/plugin/buildNumber/PluginConfigurationServiceDefault.java:184-212 | sorted by name (reversed when descending), only stored numbers, every stored name present and no name twice |
| Service.PluginConfigurationServiceDefault.GetSharedBuildNumber | SharedBuildNumber/source/production/java/net/nicholaswilliams/java/teamcity/plugin/buildNumber/PluginConfigurationServiceDefault.java:227-243 | a copy of the stored number with all seven fields, or none for an absent id; nothing changes |
| Service.PluginConfigurationServiceDefault.GetSharedBuildNumberName | SharedBuildNumber/source/production/java/net/nicholaswilliams/java/teamcity/plugin/buildNumber/PluginConfigurationServiceDefault.java:247-260 | the stored name, or the empty string for an absent id |
| Service.PluginConfigurationServiceDefault.DeleteSharedBuildNumber | SharedBuildNumber/source/production/java/net/nicholaswilliams/java/teamcity/plugin/buildNumber/PluginConfigurationServiceDefault.java:263-276 | removes exactly that id, keeps every other number and the sequence, and rewrites the file |
| Service.PluginConfigurationServiceDefault.GetAndIncrementFormattedSharedBuildNumber | SharedBuildNumber/source/production/java/net/nicholaswilliams/java/teamcity/plugin/buildNumber/PluginConfigurationServiceDefault.java:280-311 | an absent id gives null and changes nothing; otherwise the counter is one higher, every other number kept, and the file rewritten, and then it throws exactly when the text does (a null format, or a needed date with a null or invalid pattern), else returns the number formatted at the old counter |
| Service.PluginConfigurationServiceDefault.IncrementAndSave | SharedBuildNumber/source/production/java/net/nicholaswilliams/java/teamcity/plugin/buildNumber/PluginConfigurationServiceDefault.java:291-292 | returns the old counter, leaves that number one higher and every other number as it was, and rewrites the file |
| Service.PluginConfigurationServiceDefault.SaveSharedBuildNumber | SharedBuildNumber/source/production/java/net/nicholaswilliams/java/teamcity/plugin/buildNumber/PluginConfigurationServiceDefault.java:314-352 | refused, with nothing changed, exactly when the stored counter (1 for a new id) exceeds the new one; otherwise the entry under that id holds exactly the given fields, no other entry changes, and the file is rewritten |
| Service.PluginConfigurationServiceDefault.StoreSharedBuildNumber | SharedBuildNumber/source/production/java/net/nicholaswilliams/java/teamcity/plugin/buildNumber/PluginConfigurationServiceDefault.java:337-346 | the seven setters and `addOrUpdateBuildNumber`: the table afterwards is the old one with the given number under its id |
| Service.PluginConfigurationServiceDefault.EntityFor | SharedBuildNumber/source/production/java/net/nicholaswilliams/java/teamcity/plugin/buildNumber/PluginConfigurationServiceDefault.java:326-328 | the entity stored under the id, or a fresh entity whose counter is 1 when the id is not stored |
| Service.PluginConfigurationServiceDefault.SaveConfiguration | SharedBuildNumber/source/production/java/net/nicholaswilliams/java/teamcity/plugin/buildNumber/PluginConfigurationServiceDefault.java:547-579 | stamps the configuration with the save time and writes the header, last update, settings, build numbers and closing tag; numbers and sequence are kept |
| Service.PluginConfigurationServiceDefault.WriteLines | SharedBuildNumber/source/production/java/net/nicholaswilliams/java/teamcity/plugin/buildNumber/PluginConfigurationServiceDefault.java:573 | the file holds exactly the lines written; the configuration is untouched |
| Service.PluginConfigurationServiceDefault.ConfigurationLines | SharedBuildNumber/source/production/java/net/nicholaswilliams/java/teamcity/plugin/buildNumber/PluginConfigurationServiceDefault.java:555-569 | the lines are the configuration file layout for the current stamp, sequence and numbers in ascending id order |
| Service.PluginConfigurationServiceDefault.WriteSettings | SharedBuildNumber/source/production/java/net/nicholaswilliams/java/teamcity/plugin/buildNumber/PluginConfigurationServiceDefault.java:581-588 | appends the settings block with the current id sequence |
| Service.PluginConfigurationServiceDefault.WriteBuildNumbers | SharedBuildNumber/source/production/java/net/nicholaswilliams/java/teamcity/plugin/buildNumber/PluginConfigurationServiceDefault.java:590-634 | appends the build-numbers block: the entries in ascending id order, separated by blank lines, a single blank line when there are none |
| Service.WriteBuildNumbersBlock | SharedBuildNumber/source/production/java/net/nicholaswilliams/java/teamcity/plugin/buildNumber/PluginConfigurationServiceDefault.java:592-634 | given the numbers in order, appends exactly the build-numbers block for them |
| Service.CloseBuildNumbers | SharedBuildNumber/source/production/java/net/nicholaswilliams/java/teamcity/plugin/buildNumber/PluginConfigurationServiceDefault.java:630-633 | appends a blank line only when no entry was written, then the closing tag and a blank line |
| Service.WriteEntry | SharedBuildNumber/source/production/java/net/nicholaswilliams/java/teamcity/plugin/buildNumber/PluginConfigurationServiceDefault.java:616-628 | appends exactly one entry's lines |
| Service.WriteEntries | SharedBuildNumber/source/production/java/net/nicholaswilliams/java/teamcity/plugin/buildNumber/PluginConfigurationServiceDefault.java:610-629 | appends the entries' lines with a blank line between consecutive entries |
| Service.CopyInto | SharedBuildNumber/source/production/java/net/nicholaswilliams/java/teamcity/plugin/buildNumber/PluginConfigurationServiceDefault.java:337-343 | after the seven setters the entity holds exactly the given number |
| Service.ByIdCopyElements | SharedBuildNumber/source/production/java/net/nicholaswilliams/java/teamcity/plugin/buildNumber/PluginConfigurationServiceDefault.java:152-180 | a by-id set of copies that covers every id holds exactly the stored numbers |
| Service.ByNameCopyOfTable | SharedBuildNumber/source/production/java/net/nicholaswilliams/java/teamcity/plugin/buildNumber/PluginConfigurationServiceDefault.java:184-212 | a by-name set of copies holds only stored numbers and has every stored name |
| Controller.Action | SharedBuildNumber/source/production/java/net/nicholaswilliams/java/teamcity/plugin/buildNumber/SharedBuildNumberController.java:109-113 | a null or blank action is `list`, any other is trimmed |
| Controller.Route | SharedBuildNumber/source/production/java/net/nicholaswilliams/java/teamcity/plugin/buildNumber/SharedBuildNumberController.java:117-145 | the handler changes the registry exactly for add, edit and delete on POST; it is unsupported exactly for unknown actions and for delete on GET |
| Controller.NumberIsDigits | SharedBuildNumber/source/production/java/net/nicholaswilliams/java/teamcity/plugin/buildNumber/SharedBuildNumberController.java:349 | the dot and minus tests add nothing to `isDigits` |
| Controller.ParseNumberDigits | SharedBuildNumber/source/production/java/net/nicholaswilliams/java/teamcity/plugin/buildNumber/SharedBuildNumberController.java:346-354 | exactly the non-empty digit strings parse, to their decimal value |
| Controller.GetId | SharedBuildNumber/source/production/java/net/nicholaswilliams/java/teamcity/plugin/buildNumber/SharedBuildNumberController.java:346-354 | an id exactly when the `id` parameter is a non-empty digit string, and it is not negative |
| Controller.GetIdRoundTrip | SharedBuildNumber/source/production/java/net/nicholaswilliams/java/teamcity/plugin/buildNumber/SharedBuildNumberController.java:346-354 | the decimal text of an id reads back as that id |
| Controller.ErrorsForExactly | SharedBuildNumber/source/production/java/net/nicholaswilliams/java/teamcity/plugin/buildNumber/SharedBuildNumberController.java:322-332 | the error map has exactly the failing fields as keys, each with its message, and no other key |
| Controller.FormErrorsEmpty | SharedBuildNumber/source/production/java/net/nicholaswilliams/java/teamcity/plugin/buildNumber/SharedBuildNumberController.java:313-332 | a form has no errors exactly when the counter is a number, the trimmed name is 5 to 60 UTF-16 code units long, and the trimmed format and date format are at least 3 code units long |
| Controller.LongEnoughPlain | SharedBuildNumber/source/production/java/net/nicholaswilliams/java/teamcity/plugin/buildNumber/SharedBuildNumberController.java:328-332 | an untrimmed text of 3 or more characters with no edge whitespace passes the format and date-format rules |
| Controller.FormOf | SharedBuildNumber/source/production/java/net/nicholaswilliams/java/teamcity/plugin/buildNumber/SharedBuildNumberController.java:304-334 | the form carries the given id and a counter of at least 1 |
| Controller.ParseCounter | SharedBuildNumber/source/production/java/net/nicholaswilliams/java/teamcity/plugin/buildNumber/SharedBuildNumberController.java:313-323 | a number counter is taken, clamped to at least 1; anything else leaves the default counter and is reported as not a number |
| Controller.CounterRoundTrip | SharedBuildNumber/source/production/java/net/nicholaswilliams/java/teamcity/plugin/buildNumber/SharedBuildNumberController.java:313-323 | a counter sent as decimal text passes the counter rule and is stored as sent, with 0 raised to 1 |
| Controller.GetAndValidateFormFromRequest | SharedBuildNumber/source/production/java/net/nicholaswilliams/java/teamcity/plugin/buildNumber/SharedBuildNumberController.java:304-335 | the form holds the four text parameters, the id and the parsed counter, and the error map is the form's errors |
| Controller.CopyForm | SharedBuildNumber/source/production/java/net/nicholaswilliams/java/teamcity/plugin/buildNumber/SharedBuildNumberController.java:337-344 | name, description, format, date format and counter come from the form; id and chain flag stay the target's |
| Controller.AddFormDefaultsValid | SharedBuildNumber/source/production/java/net/nicholaswilliams/java/teamcity/plugin/buildNumber/SharedBuildNumberController.java:191-202 | the defaults of the add form, `{0}` and `yyyyMMddHHmmss`, pass their length rules |
| Controller.NewBuildNumberAccepted | SharedBuildNumber/source/production/java/net/nicholaswilliams/java/teamcity/plugin/buildNumber/SharedBuildNumberController.java:220-222 | a number added under a fresh id is never refused by the counter check, since its counter is at least 1 |
| Controller.SharedBuildNumberController.constructor | SharedBuildNumber/source/production/java/net/nicholaswilliams/java/teamcity/plugin/buildNumber/SharedBuildNumberController.java:75-99 | the controller over the given service |
| Controller.SharedBuildNumberController.ListBuildNumbers | SharedBuildNumber/source/production/java/net/nicholaswilliams/java/teamcity/plugin/buildNumber/SharedBuildNumberController.java:163-188 | sorted by name exactly when `sort` is `name` in any case, descending exactly when `direction` is `desc`; the sort class, sort change and prefix as listed; the result count is the size of the set, which by id holds every stored number |
| Controller.SharedBuildNumberController.EditBuildNumber | SharedBuildNumber/source/production/java/net/nicholaswilliams/java/teamcity/plugin/buildNumber/SharedBuildNumberController.java:227-249 | the edit page with the stored number for a known id, not found otherwise |
| Controller.SharedBuildNumberController.SubmitAddBuildNumber | SharedBuildNumber/source/production/java/net/nicholaswilliams/java/teamcity/plugin/buildNumber/SharedBuildNumberController.java:204-225 | a failing form goes back to the add page with its errors and nothing changes; otherwise a fresh id is taken and the form saved under it, with a redirect, unless the counter check refuses it |
| Controller.SharedBuildNumberController.SaveNewBuildNumber | SharedBuildNumber/source/production/java/net/nicholaswilliams/java/teamcity/plugin/buildNumber/SharedBuildNumberController.java:220-224 | takes the next id, which moves the sequence on by one, and saves the form under it: a redirect when the counter check accepts, the counter exception and an unchanged table when it refuses |
| Controller.SharedBuildNumberController.SubmitEditBuildNumber | SharedBuildNumber/source/production/java/net/nicholaswilliams/java/teamcity/plugin/buildNumber/SharedBuildNumberController.java:251-285 | an unknown id is not found and a failing form returns to the add page, both with nothing changed; otherwise the form is copied onto the stored number and saved, with a redirect, unless its counter is lower |
| Controller.SharedBuildNumberController.EditStored | SharedBuildNumber/source/production/java/net/nicholaswilliams/java/teamcity/plugin/buildNumber/SharedBuildNumberController.java:260-278 | for a request naming a stored number: a failing form returns to the add page with its errors and nothing changes; otherwise the form copied onto the stored number replaces it under the same id, with a redirect, unless its counter is lower |
| Controller.SharedBuildNumberController.SaveAndRedirect | SharedBuildNumber/source/production/java/net/nicholaswilliams/java/teamcity/plugin/buildNumber/SharedBuildNumberController.java:222-224 | the save followed by the redirect: the given number replaces the entry under its id when the counter check accepts it; when it refuses, the counter exception and nothing changed |
| Controller.SharedBuildNumberController.SubmitDeleteBuildNumber | SharedBuildNumber/source/production/java/net/nicholaswilliams/java/teamcity/plugin/buildNumber/SharedBuildNumberController.java:287-302 | a valid id is deleted and the browser redirected; no id gives not found and nothing changes |
| Controller.SharedBuildNumberController.DoHandle | SharedBuildNumber/source/production/java/net/nicholaswilliams/java/teamcity/plugin/buildNumber/SharedBuildNumberController.java:102-161 | a user without access is denied and nothing changes; routes that change nothing leave the registry as it was; an unsupported route is not found; list, add form and edit form give their pages; a delete removes the requested id; an edit keeps the id sequence |
| Provider.ParameterNameRoundTrip | SharedBuildNumber/source/production/java/net/nicholaswilliams/java/teamcity/plugin/buildNumber/BuildNumberPropertiesProvider.java:178-184 | the parameter of id N starts with the prefix and reads back as N |
| Provider.MalformedParametersRejected | SharedBuildNumber/source/production/java/net/nicholaswilliams/java/teamcity/plugin/buildNumber/BuildNumberPropertiesProvider.java:178-184 | `sharedBuildNumber.id` and `sharedBuildNumber.idAbc` give no id |
| Provider.ParameterNameInjective | SharedBuildNumber/source/production/java/net/nicholaswilliams/java/teamcity/plugin/buildNumber/BuildNumberPropertiesProvider.java:92 | different ids have different parameters |
| Provider.StringOrderIsStrict | SharedBuildNumber/source/production/java/net/nicholaswilliams/java/teamcity/plugin/buildNumber/BuildNumberPropertiesProvider.java:90 | the natural string order of the `TreeSet` is strict and equates only equal strings |
| Provider.ParametersOfIds | SharedBuildNumber/source/production/java/net/nicholaswilliams/java/teamcity/plugin/buildNumber/BuildNumberPropertiesProvider.java:88-94 | the parameters of a list holding every stored id are exactly the parameters of the stored ids |
| Provider.PluginParameters | SharedBuildNumber/source/production/java/net/nicholaswilliams/java/teamcity/plugin/buildNumber/BuildNumberPropertiesProvider.java:160-176 | exactly the references that start with the prefix |
| Provider.Incremented | SharedBuildNumber/source/production/java/net/nicholaswilliams/java/teamcity/plugin/buildNumber/BuildNumberPropertiesProvider.java:186-228 | incrementing for a set of parameters keeps the set of ids |
| Provider.IncrementedGrown | SharedBuildNumber/source/production/java/net/nicholaswilliams/java/teamcity/plugin/buildNumber/BuildNumberPropertiesProvider.java:186-228 | counters only grow, and nothing else about a number changes |
| Provider.AdvancedStep | SharedBuildNumber/source/production/java/net/nicholaswilliams/java/teamcity/plugin/buildNumber/BuildNumberPropertiesProvider.java:189-211 | one more parameter moves on exactly the counter it names |
| Provider.IssuedStep | SharedBuildNumber/source/production/java/net/nicholaswilliams/java/teamcity/plugin/buildNumber/BuildNumberPropertiesProvider.java:189-211 | one loop pass keeps the loop's account of what was handed out, whichever parameter comes next; a pass that throws adds no parameter to the handed-out set and no shared value |
| Provider.ThrownStep | SharedBuildNumber/source/production/java/net/nicholaswilliams/java/teamcity/plugin/buildNumber/BuildNumberPropertiesProvider.java:196 | a pass whose formatting throws has still moved its counter on, and hands out nothing |
| Provider.IssuedDistinctStep | SharedBuildNumber/source/production/java/net/nicholaswilliams/java/teamcity/plugin/buildNumber/BuildNumberPropertiesProvider.java:189-211 | two parameters that name the same number get different counters |
| Provider.BuildStartContext.AddSharedParameter | SharedBuildNumber/source/production/java/net/nicholaswilliams/java/teamcity/plugin/buildNumber/BuildNumberPropertiesProvider.java:211 | the shared parameter is set and nothing else changes |
| Provider.BuildNumberPropertiesProvider.GetParametersAvailableOnAgent | SharedBuildNumber/source/production/java/net/nicholaswilliams/java/teamcity/plugin/buildNumber/BuildNumberPropertiesProvider.java:88-94 | exactly the parameter of each stored id, once each, in string order |
| Provider.BuildNumberPropertiesProvider.Describe | SharedBuildNumber/source/production/java/net/nicholaswilliams/java/teamcity/plugin/buildNumber/BuildNumberPropertiesProvider.java:104-112 | null without the prefix or without a readable id; otherwise the name of that number, or the empty string for an unknown id |
| Provider.BuildNumberPropertiesProvider.ExtractSharedBuildNumberParameters | SharedBuildNumber/source/production/java/net/nicholaswilliams/java/teamcity/plugin/buildNumber/BuildNumberPropertiesProvider.java:160-176 | exactly the references among the values that start with the prefix |
| Provider.BuildNumberPropertiesProvider.UpdateSharedParameter | SharedBuildNumber/source/production/java/net/nicholaswilliams/java/teamcity/plugin/buildNumber/BuildNumberPropertiesProvider.java:191-219 | a parameter naming a stored number moves its counter on and rewrites the file; it throws exactly when that number's text throws, else the parameter gets the text at the old counter; any other parameter changes nothing |
| Provider.BuildNumberPropertiesProvider.HandOut | SharedBuildNumber/source/production/java/net/nicholaswilliams/java/teamcity/plugin/buildNumber/BuildNumberPropertiesProvider.java:189-227 | one loop pass, stated against the passes before it: it throws exactly when the parameter's text throws at the counters so far |
| Provider.BuildNumberPropertiesProvider.UpdateSharedParameters | SharedBuildNumber/source/production/java/net/nicholaswilliams/java/teamcity/plugin/buildNumber/BuildNumberPropertiesProvider.java:186-228 | without a throw, each counter moves on once per parameter that names it, each such parameter holds its number's text at a distinct counter issued to it, others keep their shared values, and the file is rewritten iff some parameter named a number; a throw stops the loop at a parameter whose text throws, after its counter moved on, with the same account of the parameters done before it |
| Provider.BuildNumberPropertiesProvider.UpdateParameters | SharedBuildNumber/source/production/java/net/nicholaswilliams/java/teamcity/plugin/buildNumber/BuildNumberPropertiesProvider.java:115-155 | nothing changes and nothing throws without a build type or without plugin references; otherwise, as in `updateSharedParameters`, each parameter handed out before any throw holds its number's text at a distinct counter issued to it, other shared values are kept, the counters move on once per naming parameter (the throwing one included), and the file is rewritten iff some such parameter named a number |
| LinuxLocator.FlavorName | LinuxSystemProperties/source/production/java/net/nicholaswilliams/java/teamcity/plugin/linux/LinuxPropertiesLocatorDefault.java:65 | the flavour's enum name |
| LinuxLocator.IsLinuxIgnoresCase | LinuxSystemProperties/source/production/java/net/nicholaswilliams/java/teamcity/plugin/linux/LinuxPropertiesLocatorDefault.java:91-101 | `os.name` is compared with `linux` ignoring case; a missing one is not Linux |
| LinuxLocator.LinuxPropertiesFrame | LinuxSystemProperties/source/production/java/net/nicholaswilliams/java/teamcity/plugin/linux/LinuxPropertiesLocatorDefault.java:48-89 | off Linux the table is unchanged; on Linux only the flavour, name and version keys can change |
| LinuxLocator.LocateFromWritesLinuxKeys | LinuxSystemProperties/source/production/java/net/nicholaswilliams/java/teamcity/plugin/linux/LinuxPropertiesLocatorDefault.java:55-87 | the flavour loop writes only the flavour, name and version keys |
| LinuxLocator.ParseFlavorWritesDistKeys | LinuxSystemProperties/source/production/java/net/nicholaswilliams/java/teamcity/plugin/linux/LinuxPropertiesLocatorDefault.java:105-260 | each flavour parser writes only the distribution name and version |
| LinuxLocator.LocateFromSkips | LinuxSystemProperties/source/production/java/net/nicholaswilliams/java/teamcity/plugin/linux/LinuxPropertiesLocatorDefault.java:55-87 | flavours whose files are missing or unreadable are passed over |
| LinuxLocator.FirstReadableFlavorWins | LinuxSystemProperties/source/production/java/net/nicholaswilliams/java/teamcity/plugin/linux/LinuxPropertiesLocatorDefault.java:55-87 | on Linux the first readable flavour in the order SuSE, RedHat, Debian is recorded under `os.linux.flavor` and its parser decides the rest; later files play no part |
| LinuxLocator.NoReadableFlavor | LinuxSystemProperties/source/production/java/net/nicholaswilliams/java/teamcity/plugin/linux/LinuxPropertiesLocatorDefault.java:55-87 | with no readable flavour file the table is unchanged |
| LinuxLocator.SuseName | LinuxSystemProperties/source/production/java/net/nicholaswilliams/java/teamcity/plugin/linux/LinuxPropertiesLocatorDefault.java:109-115 | an empty brand file adds nothing; otherwise the name is the trimmed first line, with `SLES` in any case spelled out |
| LinuxLocator.SuseVersionAfterEquals | LinuxSystemProperties/source/production/java/net/nicholaswilliams/java/teamcity/plugin/linux/LinuxPropertiesLocatorDefault.java:117-125 | a second line starting with `version` stores the trimmed text after its first `=`, outside the SLES patch-level case |
| LinuxLocator.SuseWithoutVersion | LinuxSystemProperties/source/production/java/net/nicholaswilliams/java/teamcity/plugin/linux/LinuxPropertiesLocatorDefault.java:117-124 | without such a line no version is stored |
| LinuxLocator.SlesStoresPatchLevel | LinuxSystemProperties/source/production/java/net/nicholaswilliams/java/teamcity/plugin/linux/LinuxPropertiesLocatorDefault.java:126-159 | for SLES with a dot-free version and a `patchlevel` third line, the stored version is the patch level alone |
| LinuxLocator.SlesPatchLevelWithoutEquals | LinuxSystemProperties/source/production/java/net/nicholaswilliams/java/teamcity/plugin/linux/LinuxPropertiesLocatorDefault.java:143-159 | a `patchlevel` line without `=` makes the parser throw |
| LinuxLocator.Sles11PatchLevelExample | LinuxSystemProperties/source/production/java/net/nicholaswilliams/java/teamcity/plugin/linux/LinuxPropertiesLocatorDefault.java:126-159 | `SLES` / `VERSION = 11` with `PATCHLEVEL = 3` stores `3` |
| LinuxLocator.SplitAtFirst | LinuxSystemProperties/source/production/java/net/nicholaswilliams/java/teamcity/plugin/linux/LinuxPropertiesLocatorDefault.java:122 | splitting at the first `=` recovers the text before and after it |
| LinuxLocator.DebianNameAndVersion | LinuxSystemProperties/source/production/java/net/nicholaswilliams/java/teamcity/plugin/linux/LinuxPropertiesLocatorDefault.java:215-260 | without `/etc/lsb-release` the name is `Debian` and the version the trimmed first line, if any; with it the trimmed `DISTRIB_ID` and `DISTRIB_RELEASE`, throwing when one is missing; an unreadable one adds nothing |
| LinuxLocator.PluginVersionKept | LinuxSystemProperties/source/production/java/net/nicholaswilliams/java/teamcity/plugin/linux/AbstractLinuxPropertiesLocator.java:44-103 | the returned table keeps the plugin version, and off Linux holds nothing else |
| LinuxLocator.PropertyMap.Put | LinuxSystemProperties/source/production/java/net/nicholaswilliams/java/teamcity/plugin/linux/LinuxPropertiesLocatorDefault.java:65 | `put` sets one key |
| LinuxLocator.LocateSuse | LinuxSystemProperties/source/production/java/net/nicholaswilliams/java/teamcity/plugin/linux/LinuxPropertiesLocatorDefault.java:105-168 | the brand-file parser fills the map as `SuseProperties` says |
| LinuxLocator.LocateSuseVersion | LinuxSystemProperties/source/production/java/net/nicholaswilliams/java/teamcity/plugin/linux/LinuxPropertiesLocatorDefault.java:117-161 | the second-line handling, including the reassigned `parts` and the unused `version`, as `SuseVersion` says |
| LinuxLocator.ReadPatchLevel | LinuxSystemProperties/source/production/java/net/nicholaswilliams/java/teamcity/plugin/linux/LinuxPropertiesLocatorDefault.java:141-150 | when `/etc/SuSE-release` has a third line starting, ignoring case, with `patchlevel`, that line split at its first `=` replaces the version line's parts |
| LinuxLocator.LocateRedHat | LinuxSystemProperties/source/production/java/net/nicholaswilliams/java/teamcity/plugin/linux/LinuxPropertiesLocatorDefault.java:171-211 | on a match the trimmed name and version groups are stored, otherwise nothing |
| LinuxLocator.LocateDebian | LinuxSystemProperties/source/production/java/net/nicholaswilliams/java/teamcity/plugin/linux/LinuxPropertiesLocatorDefault.java:213-260 | fills the map as `DebianProperties` says |
| LinuxLocator.LocateFlavor | LinuxSystemProperties/source/production/java/net/nicholaswilliams/java/teamcity/plugin/linux/LinuxPropertiesLocatorDefault.java:103-276 | dispatches to the flavour's parser |
| LinuxLocator.LocateLinuxProperties | LinuxSystemProperties/source/production/java/net/nicholaswilliams/java/teamcity/plugin/linux/LinuxPropertiesLocatorDefault.java:48-89 | the loop with `break` gives exactly `LinuxProperties`: the first readable flavour is recorded and parsed |
| LinuxLocator.DeterminePluginVersion | LinuxSystemProperties/source/production/java/net/nicholaswilliams/java/teamcity/plugin/linux/AbstractLinuxPropertiesLocator.java:54-103 | the plugin version is copied when the version file holds it, and nothing happens otherwise |
| LinuxLocator.LocateProperties | LinuxSystemProperties/source/production/java/net/nicholaswilliams/java/teamcity/plugin/linux/AbstractLinuxPropertiesLocator.java:44-52 | a fresh table, the plugin version, then the Linux keys, or none when a parser throws |

## Left out

- **Locking and concurrency.** Every operation is sequential. This leaves out the read/write
  lock, `synchronized`, the atomicity of the `AtomicInteger` counters, and the file watcher
  with its `changeOccured` reload, `initialize`, `destroy` and `finalize`.
- **File I/O.** Nothing touches the file system:
  - Loading the configuration through the XML schema and Commons Digester is not modelled.
    The service is built over an already loaded `ConfigurationEntity` and header lines.
  - Copying the XSD and default files is not modelled.
  - `FileUtils.writeLines` is `WriteLines`, which records the lines written.
  - Reading the release files, `/etc/lsb-release` and `version.properties` is replaced by
    the `Host` and `VersionFile` values.
- **Dates.** The `<last-update>` stamp is a `timestamp` string. `new SimpleDateFormat(p).format(new Date())`
  is the `now` parameter, a `DateFormatter`. It maps a pattern to the current time formatted
  with it, or to none where the constructor throws `IllegalArgumentException`. Which patterns
  are valid, and what they print, belong to that parameter.
- **`java.util.Properties` parsing.** `/etc/lsb-release` and `version.properties` are
  given already parsed, as maps.
- **The RedHat regular expression.** `matcher` stands for it, yielding no match or groups 1
  and 3; `java.util.regex` matching is not modelled.
- **`Provider.BuildNumberPropertiesProvider.UpdateSharedParameters`:** one `now` formatter
  serves every pass of the loop, so every `{d}` text handed out at one build start is stated
  with the same clock reading. The source formats a fresh `new Date()` on each call of
  `getAndIncrementFormattedSharedBuildNumber`. If the clock crosses a second or minute
  boundary during the loop, two parameters can carry different dates there. Whether a
  pattern throws does not depend on the clock, so `thrown` is unaffected.
- **`Provider.BuildNumberPropertiesProvider.UpdateParameters`:** holds the clock still for
  the whole build start in the same way, through `UpdateSharedParameters`.
- **`Provider.BuildNumberPropertiesProvider.UpdateParameters`:** `updateBuildNumber` is
  not modelled. It resolves the build number through TeamCity's `ParametersResolverUtil`
  and sets `system.build.number`/`env.BUILD_NUMBER`, which is outside this model.
  `ReferencesResolverUtil.getReferences` is the `references` parameter.
  `getParameters` always returns an empty map and is not modelled.
- **Other TeamCity host APIs.** These are reduced to values:
  - the user's two permissions
  - the request's method and parameters
  - the response variants, with `WebUtil.notFound` as `NotFound`
  - `ModelAndView`/`RedirectView`
  - the `AdminTab` page registration and the extension registration

  The agent and server property extensions are not modelled.
- **The browser-side form script** is not part of this model.
- **Integer width.** Ids and counters are unbounded integers. This leaves out:
  - counter and sequence overflow
  - the `NumberFormatException` that `Integer.parseInt` throws for a digit string beyond
    `int` range in `getId`, the counter field and `extractBuildIdFromParameter`
- **Hashtable iteration order.** Entity and parameter sets are iterated in an arbitrary
  order, chosen with `:|`. The error map is a `map`, with no order.
- **Case mapping.** `toLowerCase`/`equalsIgnoreCase` map only ASCII letters. `trim`
  removes characters up to U+0020, as Java does.
- **Unicode digits.** `NumberUtils.isDigits` and `Integer.parseInt` also accept the other
  Unicode decimal digits (category Nd, such as `٣` or `３`), as the JVM's Unicode tables
  list them. The model reads only `0`–`9`, so an id or counter written in other digits is
  treated as not a number. These members are affected, one line each:
- **`Controller.ParseNumberDigits`:** only ASCII digit strings parse.
- **`Controller.GetId`:** an `id` parameter in non-ASCII digits gives no id here.
- **`Controller.ParseCounter`:** a counter in non-ASCII digits is reported as not a number.
- **`Controller.FormErrorsEmpty`:** a counter in non-ASCII digits counts as a `counter` error.
- **`Controller.GetAndValidateFormFromRequest`:** inherits the two lines above.
- **`Provider.ExtractBuildIdFromParameter`:** `sharedBuildNumber.id` followed by non-ASCII
  digits gives no id, so the update methods treat it as malformed.
- **`Service.PluginConfigurationServiceDefault.SortedByName`:** requires every stored name
  to be non-null. The source's comparator throws `NullPointerException` or orders
  inconsistently on some mixes of null names.
- **`Controller.SharedBuildNumberController.ListBuildNumbers`:** for a by-name listing
  (`sort=name`), requires every stored name to be non-null, as `SortedByName` does.
- **`Controller.SharedBuildNumberController.DoHandle`:** the edit and add submissions are
  stated only through the handlers' own contracts. Its own ensures state, for an edit
  submission, only that the id sequence is kept, and for an add submission nothing beyond
  validity. For a by-name listing it also requires every stored name to be non-null, as
  `SortedByName` does.
- **Exceptions raised to the caller.** The model follows the code where it differs from
  the tests:
  - The counter check in `saveSharedBuildNumber` leaves the controller as
    `CounterDecreased`.
  - A failed edit is shown on the add page with an `errors` map, not on the edit page with
    a Spring binding result.
  - A null format, or a needed date under a null or invalid pattern, makes
    `getAndIncrementFormattedSharedBuildNumber` throw after it has saved the new counter.
    This is the `thrown` result. The provider's loop stops there, as the exception is not an
    `IOException` it catches. What TeamCity does with the exception is outside this model.
