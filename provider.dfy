/**
 * `BuildNumberPropertiesProvider`: the `sharedBuildNumber.id<N>` parameters that builds can
 * reference, their descriptions, and the increment of every shared build number that a
 * starting build references.
 */
module Provider {
  import opened Wrappers
  import opened JavaString
  import opened TreeSet
  import opened Entity
  import opened Service
  import opened BuildNumberFormat

  const ParameterPrefix: string := "sharedBuildNumber.id"

  /** The parameter that stands for shared build number `id`. */
  function ParameterName(id: int): string
  {
    ParameterPrefix + IntToString(id)
  }

  /**
   * `extractBuildIdFromParameter`: every occurrence of the prefix is removed, and what is
   * left is read as an id when it is a non-empty run of decimal digits.
   */
  function ExtractBuildIdFromParameter(parameter: string): Option<int>
  {
    var idString := Replace(parameter, ParameterPrefix, "");
    if IsDigits(idString) then Some(DigitsValue(idString)) else None
  }

  /** The parameter of a non-negative id starts with the prefix and gives that id back. */
  lemma ParameterNameRoundTrip(id: nat)
    ensures StartsWith(ParameterName(id), ParameterPrefix)
    ensures ExtractBuildIdFromParameter(ParameterName(id)) == Some(id)
  {
    var digits := NatToString(id);
    assert ParameterName(id) == [] + ParameterPrefix + digits;
    ReplaceAfterPlainText([], ParameterPrefix, "", digits);
    assert 's' !in digits by {
      assert forall i | 0 <= i < |digits| :: IsDigit(digits[i]);
    }
    AbsentByFirstChar(digits, ParameterPrefix);
    ReplaceAbsent(digits, ParameterPrefix, "");
    assert Replace(ParameterName(id), ParameterPrefix, "") == digits;
    NatToStringRoundTrip(id);
  }

  /** The bare prefix, and the prefix followed by letters, name no shared build number. */
  lemma MalformedParametersRejected()
    ensures ExtractBuildIdFromParameter("sharedBuildNumber.id") == None
    ensures ExtractBuildIdFromParameter("sharedBuildNumber.idAbc") == None
  {
    assert Replace(ParameterPrefix, ParameterPrefix, "") == [] by {
      ReplaceAfterPlainText([], ParameterPrefix, "", []);
      assert [] + ParameterPrefix + [] == ParameterPrefix;
    }
    assert Replace("sharedBuildNumber.idAbc", ParameterPrefix, "") == "Abc" by {
      ReplaceAfterPlainText([], ParameterPrefix, "", "Abc");
      assert [] + ParameterPrefix + "Abc" == "sharedBuildNumber.idAbc";
      AbsentByFirstChar("Abc", ParameterPrefix);
      ReplaceAbsent("Abc", ParameterPrefix, "");
    }
    assert !IsDigit('A');
  }

  /** `String.compareTo` as the order of a `TreeSet<String>`. */
  function StringOrder(): (string, string) -> bool
  {
    (a: string, b: string) => StrLess(a, b)
  }

  lemma StringOrderIsStrict()
    ensures StrictOrder(StringOrder())
    ensures forall a, b :: Equivalent(StringOrder(), a, b) ==> a == b
  {
    forall a: string ensures !StrLess(a, a) {
      StrLessIrreflexive(a);
    }
    forall a: string, b: string, c: string | StrLess(a, b) && StrLess(b, c) ensures StrLess(a, c) {
      StrLessTransitive(a, b, c);
    }
    forall a: string, b: string | !StrLess(a, b) && !StrLess(b, a) ensures a == b {
      StrLessTotal(a, b);
    }
  }

  /** Different ids have different parameters. */
  lemma ParameterNameInjective(a: int, b: int)
    requires ParameterName(a) == ParameterName(b)
    ensures a == b
  {
    assert ParameterName(a)[|ParameterPrefix|..] == IntToString(a);
    assert ParameterName(b)[|ParameterPrefix|..] == IntToString(b);
    IntToStringInjective(a, b);
  }

  /** The parameter names of `ids`, in the same order. */
  function ParameterNames(ids: seq<int>): (r: seq<string>)
    ensures |r| == |ids| && forall j | 0 <= j < |ids| :: r[j] == ParameterName(ids[j])
  {
    seq(|ids|, j requires 0 <= j < |ids| => ParameterName(ids[j]))
  }

  /** Distinct ids have distinct parameter names. */
  lemma ParameterNamesDistinct(ids: seq<int>)
    requires forall i, j | 0 <= i < j < |ids| :: ids[i] != ids[j]
    ensures forall i, j | 0 <= i < j < |ids| :: ParameterNames(ids)[i] != ParameterNames(ids)[j]
  {
    var names := ParameterNames(ids);
    forall i, j | 0 <= i < j < |ids| ensures names[i] != names[j] {
      if names[i] == names[j] {
        ParameterNameInjective(ids[i], ids[j]);
      }
    }
  }

  /** The sorted names of the first `i` ids, with the next name added, are the names of the first `i + 1`. */
  lemma InsertNextName(names: seq<string>, i: nat, parameters: seq<string>)
    requires i < |names| && forall a, b | 0 <= a < b < |names| :: names[a] != names[b]
    requires Sorted(parameters, StringOrder()) && |parameters| == i
    requires forall p :: p in parameters <==> p in names[..i]
    ensures var r := Add(parameters, names[i], StringOrder());
      && Sorted(r, StringOrder()) && |r| == i + 1
      && forall p :: p in r <==> p in names[..i + 1]
  {
    assert names[..i + 1] == names[..i] + [names[i]];
    InsertParameter(parameters, names[i]);
  }

  /** Names exactly the parameter names of `ids` when the ids are exactly the keys of `numbers`. */
  lemma ParametersOfIds(ids: seq<int>, numbers: map<int, SharedBuildNumber>, parameters: seq<string>)
    requires forall k :: k in numbers <==> k in ids
    requires forall p :: p in parameters <==> p in ParameterNames(ids)
    ensures forall p :: p in parameters <==> exists k | k in numbers :: p == ParameterName(k)
  {
    var names := ParameterNames(ids);
    forall p | p in parameters ensures exists k | k in numbers :: p == ParameterName(k) {
      var j :| 0 <= j < |names| && names[j] == p;
      assert ids[j] in ids;
    }
    forall k | k in numbers ensures ParameterName(k) in parameters {
      var j :| 0 <= j < |ids| && ids[j] == k;
      assert names[j] in names;
    }
  }

  /** Adding a new name to a sorted set of names keeps it sorted and grows it by that name. */
  lemma InsertParameter(parameters: seq<string>, parameter: string)
    requires Sorted(parameters, StringOrder()) && parameter !in parameters
    ensures var r := Add(parameters, parameter, StringOrder());
      && Sorted(r, StringOrder()) && |r| == |parameters| + 1
      && forall p :: p in r <==> p == parameter || p in parameters
  {
    StringOrderIsStrict();
    AddSorted(parameters, parameter, StringOrder());
  }

  /**
   * The references to shared build numbers among the values of a build's parameters:
   * `references` stands for `ReferencesResolverUtil.getReferences`.
   */
  ghost function PluginParameters(parameters: set<string>, references: string -> seq<string>): (r: set<string>)
    ensures forall x :: x in r <==> StartsWith(x, ParameterPrefix) && exists p | p in parameters :: x in references(p)
  {
    set p, x | p in parameters && x in references(p) && StartsWith(x, ParameterPrefix) :: x
  }

  /** Every value of the build's own parameters and of each runner's parameters. */
  ghost function AllValues(buildValues: set<string>, runnerValues: seq<set<string>>): set<string>
  {
    if runnerValues == [] then buildValues
    else AllValues(buildValues, runnerValues[..|runnerValues| - 1]) + runnerValues[|runnerValues| - 1]
  }

  /**
   * How a parameter is read as an id.  The loop of `updateSharedParameters` is reasoned
   * about for any reader; the provider uses `ExtractBuildIdFromParameter`.
   */
  type IdReader = string -> Option<int>

  /** `parameter` names one of the stored shared build numbers. */
  predicate Names(read: IdReader, parameter: string, numbers: map<int, SharedBuildNumber>)
  {
    read(parameter).Some? && read(parameter).value in numbers
  }

  /** The id a parameter names. */
  function IdOf(parameter: string): int
    requires ExtractBuildIdFromParameter(parameter).Some?
  {
    ExtractBuildIdFromParameter(parameter).value
  }

  /** The plugin parameters that name a stored shared build number: the ones that get a value. */
  ghost function Applied(read: IdReader, numbers: map<int, SharedBuildNumber>, parameters: set<string>): set<string>
  {
    set p | p in parameters && Names(read, p, numbers)
  }

  /** How many of `parameters` name shared build number `id`. */
  ghost function Uses(read: IdReader, parameters: set<string>, id: int): nat
  {
    |set p | p in parameters && read(p) == Some(id)|
  }

  /** Each stored counter moved on once for every parameter that names it. */
  ghost function Incremented(read: IdReader, numbers: map<int, SharedBuildNumber>, parameters: set<string>): (r: map<int, SharedBuildNumber>)
    ensures r.Keys == numbers.Keys
  {
    map k | k in numbers :: numbers[k].(counter := numbers[k].counter + Uses(read, parameters, k))
  }

  /** `current` is `numbers` with some counters moved on and nothing else changed. */
  ghost predicate CountersGrown(numbers: map<int, SharedBuildNumber>, current: map<int, SharedBuildNumber>)
  {
    && current.Keys == numbers.Keys
    && forall k | k in numbers ::
         current[k] == numbers[k].(counter := current[k].counter) && numbers[k].counter <= current[k].counter
  }

  /** The text handed out for `b` at `counter`, or none when building it throws. */
  function NumberText(b: SharedBuildNumber, counter: int, now: DateFormatter): Option<string>
  {
    BuildNumberText(b.format, counter, b.dateFormat, now)
  }

  /**
   * Handling `p` throws: it names a stored number whose text cannot be built at that
   * number's `current` counter.
   */
  ghost predicate Throws(read: IdReader, current: map<int, SharedBuildNumber>, p: string, now: DateFormatter)
  {
    Names(read, p, current) && NumberText(current[read(p).value], current[read(p).value].counter, now).None?
  }

  /** The shared parameters are the ones there were before and the handled ones that name a stored number. */
  ghost predicate SharedKeys(read: IdReader, numbers: map<int, SharedBuildNumber>, done: set<string>,
                             shared: map<string, string>, before: map<string, string>)
  {
    shared.Keys == before.Keys + Applied(read, numbers, done)
  }

  /** A shared parameter that was not handed a number keeps its value. */
  ghost predicate OthersKept(read: IdReader, numbers: map<int, SharedBuildNumber>, done: set<string>,
                             shared: map<string, string>, before: map<string, string>)
    requires SharedKeys(read, numbers, done, shared, before)
  {
    forall q | q in before && q !in Applied(read, numbers, done) :: shared[q] == before[q]
  }

  /**
   * A handled parameter that names a stored number holds that number's text at the counter
   * it was `issued`, which lies between the number's first and its current counter.
   */
  ghost predicate IssuedTexts(read: IdReader, numbers: map<int, SharedBuildNumber>, current: map<int, SharedBuildNumber>,
                              done: set<string>, shared: map<string, string>, issued: map<string, int>,
                              now: DateFormatter)
  {
    forall p | p in Applied(read, numbers, done) ::
      var id := read(p).value;
      && p in issued && p in shared && id in current
      && numbers[id].counter <= issued[p] < current[id].counter
      && NumberText(numbers[id], issued[p], now) == Some(shared[p])
  }

  /** Two handled parameters that name the same number were issued different counters. */
  ghost predicate IssuedDistinct(read: IdReader, numbers: map<int, SharedBuildNumber>, done: set<string>,
                                 issued: map<string, int>)
  {
    forall p, q | p in Applied(read, numbers, done) && q in Applied(read, numbers, done) && p != q ::
      p in issued && q in issued && (read(p) == read(q) ==> issued[p] != issued[q])
  }

  /**
   * What the shared parameters hold after the parameters in `done` were handled, starting
   * from `numbers` and `before`.
   */
  ghost predicate IssuedNumbers(read: IdReader, numbers: map<int, SharedBuildNumber>, current: map<int, SharedBuildNumber>,
                                done: set<string>, shared: map<string, string>, before: map<string, string>,
                                issued: map<string, int>, now: DateFormatter)
  {
    && SharedKeys(read, numbers, done, shared, before)
    && OthersKept(read, numbers, done, shared, before)
    && IssuedTexts(read, numbers, current, done, shared, issued, now)
    && IssuedDistinct(read, numbers, done, issued)
  }

  /** One more parameter adds one use to the number it names and none to any other. */
  lemma UsesStep(read: IdReader, parameters: set<string>, p: string, id: int)
    requires p !in parameters
    ensures Uses(read, parameters + {p}, id) == Uses(read, parameters, id) + (if read(p) == Some(id) then 1 else 0)
  {
    var before := set q | q in parameters && read(q) == Some(id);
    var after := set q | q in parameters + {p} && read(q) == Some(id);
    if read(p) == Some(id) {
      assert after == before + {p};
    } else {
      assert after == before;
    }
  }

  /** Handling one more parameter moves on the counter of the number it names, if it names a stored one. */
  lemma IncrementedStep(read: IdReader, numbers: map<int, SharedBuildNumber>, done: set<string>, p: string)
    requires p !in done
    ensures Names(read, p, numbers) ==>
      Incremented(read, numbers, done + {p}) == CounterIncremented(Incremented(read, numbers, done), read(p).value)
    ensures !Names(read, p, numbers) ==> Incremented(read, numbers, done + {p}) == Incremented(read, numbers, done)
  {
    forall k | k in numbers ensures Uses(read, done + {p}, k) == Uses(read, done, k) + (if read(p) == Some(k) then 1 else 0) {
      UsesStep(read, done, p, k);
    }
  }

  /** Counters only ever move on. */
  lemma IncrementedGrown(read: IdReader, numbers: map<int, SharedBuildNumber>, done: set<string>)
    ensures CountersGrown(numbers, Incremented(read, numbers, done))
  {
  }

  /** Handling one more parameter adds it to the applied ones exactly when it names a stored number. */
  lemma AppliedStep(read: IdReader, numbers: map<int, SharedBuildNumber>, done: set<string>, p: string)
    ensures Names(read, p, numbers) ==> Applied(read, numbers, done + {p}) == Applied(read, numbers, done) + {p}
    ensures !Names(read, p, numbers) ==> Applied(read, numbers, done + {p}) == Applied(read, numbers, done)
  {
  }

  /** Starting out, no counter has moved. */
  lemma NothingIncrementedYet(read: IdReader, numbers: map<int, SharedBuildNumber>)
    ensures Incremented(read, numbers, {}) == numbers
  {
    forall k | k in numbers ensures Uses(read, {}, k) == 0 {
      assert (set q: string | q in {} && read(q) == Some(k)) == {};
    }
  }

  /** Starting out, nothing has been handed out and no counter has moved. */
  lemma NothingIssuedYet(read: IdReader, numbers: map<int, SharedBuildNumber>,
                         shared: map<string, string>, now: DateFormatter)
    ensures Incremented(read, numbers, {}) == numbers
    ensures IssuedNumbers(read, numbers, numbers, {}, shared, shared, map[], now)
  {
    NothingIncrementedYet(read, numbers);
    assert Applied(read, numbers, {}) == {};
  }

  /** The texts handed out so far stay as they were when one more parameter gets the current counter. */
  lemma {:induction false} IssuedTextsStep(read: IdReader, numbers: map<int, SharedBuildNumber>, current: map<int, SharedBuildNumber>,
                                           done: set<string>, p: string, shared: map<string, string>,
                                           issued: map<string, int>, now: DateFormatter)
    requires CountersGrown(numbers, current) && Names(read, p, numbers) && !Throws(read, current, p, now)
    requires IssuedTexts(read, numbers, current, done, shared, issued, now)
    ensures var b := current[read(p).value];
      IssuedTexts(read, numbers, CounterIncremented(current, read(p).value), done + {p},
                  shared[p := NumberText(b, b.counter, now).value], issued[p := b.counter], now)
  {
    var id := read(p).value;
    var b := current[id];
    var next := CounterIncremented(current, id);
    var text := NumberText(b, b.counter, now).value;
    assert NumberText(b, b.counter, now) == NumberText(numbers[id], b.counter, now);
    forall q | q in Applied(read, numbers, done + {p})
      ensures var k := read(q).value;
        && q in issued[p := b.counter] && q in shared[p := text] && k in next
        && numbers[k].counter <= issued[p := b.counter][q] < next[k].counter
        && NumberText(numbers[k], issued[p := b.counter][q], now) == Some(shared[p := text][q])
    {
      if q != p {
        assert q in Applied(read, numbers, done);
      }
    }
  }

  /** One more parameter is issued a counter that no parameter of the same number had. */
  lemma {:induction false} IssuedDistinctStep(read: IdReader, numbers: map<int, SharedBuildNumber>, current: map<int, SharedBuildNumber>,
                                              done: set<string>, p: string, shared: map<string, string>,
                                              issued: map<string, int>, now: DateFormatter)
    requires CountersGrown(numbers, current) && Names(read, p, numbers) && p !in done
    requires IssuedTexts(read, numbers, current, done, shared, issued, now)
    requires IssuedDistinct(read, numbers, done, issued)
    ensures IssuedDistinct(read, numbers, done + {p}, issued[p := current[read(p).value].counter])
  {
    var c := current[read(p).value].counter;
    var next := issued[p := c];
    forall q, r | q in Applied(read, numbers, done + {p}) && r in Applied(read, numbers, done + {p}) && q != r
      ensures q in next && r in next && (read(q) == read(r) ==> next[q] != next[r])
    {
      if q != p {
        assert q in Applied(read, numbers, done);
      }
      if r != p {
        assert r in Applied(read, numbers, done);
      }
    }
  }

  /** The stored numbers after `p` is handled: the counter it names moves on. */
  function Advanced(read: IdReader, current: map<int, SharedBuildNumber>, p: string): map<int, SharedBuildNumber>
  {
    if read(p).Some? then CounterIncremented(current, read(p).value) else current
  }

  /** The shared parameters after `p` is handled: it gets the text of the number it names, if any. */
  function WithShared(read: IdReader, current: map<int, SharedBuildNumber>, p: string,
                      shared: map<string, string>, now: DateFormatter): map<string, string>
  {
    if Names(read, p, current) && NumberText(current[read(p).value], current[read(p).value].counter, now).Some? then
      var b := current[read(p).value];
      shared[p := NumberText(b, b.counter, now).value]
    else shared
  }

  /** The counters issued after `p` is handled: it was given the current counter of the number it names. */
  ghost function WithIssued(read: IdReader, current: map<int, SharedBuildNumber>, p: string,
                            issued: map<string, int>): map<string, int>
  {
    if Names(read, p, current) then issued[p := current[read(p).value].counter] else issued
  }

  /** Handling one more parameter moves the stored numbers on as `Advanced` says. */
  lemma {:induction false} AdvancedStep(read: IdReader, numbers: map<int, SharedBuildNumber>, done: set<string>, p: string)
    requires p !in done
    ensures Names(read, p, Incremented(read, numbers, done)) <==> Names(read, p, numbers)
    ensures Incremented(read, numbers, done + {p}) == Advanced(read, Incremented(read, numbers, done), p)
  {
    IncrementedStep(read, numbers, done, p);
    if read(p).Some? && !Names(read, p, numbers) {
      assert CounterIncremented(Incremented(read, numbers, done), read(p).value) == Incremented(read, numbers, done);
    }
  }

  /**
   * The configuration file over one pass of the loop of `updateSharedParameters`: once some
   * parameter was handed a number, the file is the save of the numbers as they now are.
   */
  lemma FileStep(file: seq<string>, next: seq<string>, original: seq<string>, saved: bool, named: bool,
                 header: seq<string>, timestamp: string, sequence: int, sequence': int,
                 current: map<int, SharedBuildNumber>, advanced: map<int, SharedBuildNumber>, after: map<int, SharedBuildNumber>)
    requires file == if saved then FileText(header, timestamp, sequence, current) else original
    requires next == if named then FileText(header, timestamp, sequence', advanced) else file
    requires sequence' == sequence && after == advanced && (!named ==> advanced == current)
    ensures next == if saved || named then FileText(header, timestamp, sequence, after) else original
  {
  }

  /** A parameter that names a stored number is handed its text at the current counter. */
  lemma {:induction false} HandedStep(read: IdReader, numbers: map<int, SharedBuildNumber>, done: set<string>, p: string,
                                      current: map<int, SharedBuildNumber>, shared: map<string, string>,
                                      before: map<string, string>, issued: map<string, int>, now: DateFormatter)
    requires CountersGrown(numbers, current) && p !in done && Names(read, p, numbers) && !Throws(read, current, p, now)
    requires IssuedNumbers(read, numbers, current, done, shared, before, issued, now)
    ensures IssuedNumbers(read, numbers, Advanced(read, current, p), done + {p},
                          WithShared(read, current, p, shared, now), before, WithIssued(read, current, p, issued), now)
  {
    var id := read(p).value;
    assert id in numbers && id in current;
    var b := current[id];
    assert b == numbers[id].(counter := b.counter);
    assert WithShared(read, current, p, shared, now) == shared[p := NumberText(b, b.counter, now).value];
    IssuedTextsStep(read, numbers, current, done, p, shared, issued, now);
    IssuedDistinctStep(read, numbers, current, done, p, shared, issued, now);
    AppliedStep(read, numbers, done, p);
  }

  /** A parameter that names no stored number changes nothing. */
  lemma {:induction false} SkippedStep(read: IdReader, numbers: map<int, SharedBuildNumber>, done: set<string>, p: string,
                                       current: map<int, SharedBuildNumber>, shared: map<string, string>,
                                       before: map<string, string>, issued: map<string, int>, now: DateFormatter)
    requires CountersGrown(numbers, current) && !Names(read, p, numbers)
    requires IssuedNumbers(read, numbers, current, done, shared, before, issued, now)
    ensures Advanced(read, current, p) == current
    ensures IssuedNumbers(read, numbers, current, done + {p}, shared, before, issued, now)
  {
    AppliedStep(read, numbers, done, p);
    if read(p).Some? {
      assert CounterIncremented(current, read(p).value) == current;
    }
  }

  /**
   * A parameter whose number cannot be built moves its counter on and hands out nothing:
   * what was handed out before stays as it was.
   */
  lemma {:induction false} ThrownStep(read: IdReader, numbers: map<int, SharedBuildNumber>, done: set<string>, p: string,
                                      current: map<int, SharedBuildNumber>, shared: map<string, string>,
                                      before: map<string, string>, issued: map<string, int>, now: DateFormatter)
    requires CountersGrown(numbers, current) && Throws(read, current, p, now)
    requires IssuedNumbers(read, numbers, current, done, shared, before, issued, now)
    ensures WithShared(read, current, p, shared, now) == shared
    ensures IssuedNumbers(read, numbers, Advanced(read, current, p), done, shared, before, issued, now)
  {
    var id := read(p).value;
    var next := Advanced(read, current, p);
    assert next == CounterIncremented(current, id);
    forall q | q in Applied(read, numbers, done)
      ensures var k := read(q).value; k in next && issued[q] < next[k].counter
    {
    }
  }

  /**
   * The invariant of the loop of `updateSharedParameters` survives one more parameter:
   * `current`, `shared` and `issued` are the state before it is handled.
   */
  lemma {:induction false} IssuedStep(read: IdReader, numbers: map<int, SharedBuildNumber>, done: set<string>, p: string,
                                      current: map<int, SharedBuildNumber>, shared: map<string, string>,
                                      before: map<string, string>, issued: map<string, int>, now: DateFormatter)
    requires p !in done && current == Incremented(read, numbers, done)
    requires IssuedNumbers(read, numbers, current, done, shared, before, issued, now)
    ensures Names(read, p, current) <==> Names(read, p, numbers)
    ensures Incremented(read, numbers, done + {p}) == Advanced(read, current, p)
    ensures IssuedNumbers(read, numbers, Advanced(read, current, p), if Throws(read, current, p, now) then done else done + {p},
                          WithShared(read, current, p, shared, now), before,
                          if Throws(read, current, p, now) then issued else WithIssued(read, current, p, issued), now)
    ensures Applied(read, numbers, done + {p}) == Applied(read, numbers, done) + (if Names(read, p, numbers) then {p} else {})
  {
    AdvancedStep(read, numbers, done, p);
    IncrementedGrown(read, numbers, done);
    AppliedStep(read, numbers, done, p);
    if Throws(read, current, p, now) {
      ThrownStep(read, numbers, done, p, current, shared, before, issued, now);
    } else if Names(read, p, numbers) {
      HandedStep(read, numbers, done, p, current, shared, before, issued, now);
    } else {
      SkippedStep(read, numbers, done, p, current, shared, before, issued, now);
    }
  }

  /** The values of a build's parameters, as `addSharedParameter` leaves them. */
  class BuildStartContext {
    var sharedParameters: map<string, string>

    constructor ()
      ensures sharedParameters == map[]
    {
      sharedParameters := map[];
    }

    method AddSharedParameter(key: string, value: string)
      modifies this
      ensures sharedParameters == old(sharedParameters)[key := value]
    {
      sharedParameters := sharedParameters[key := value];
    }
  }

  class BuildNumberPropertiesProvider {
    const configurationService: PluginConfigurationServiceDefault

    constructor (configurationService: PluginConfigurationServiceDefault)
      ensures this.configurationService == configurationService
    {
      this.configurationService := configurationService;
    }

    /** `getParametersAvailableOnAgent`: the parameter of every stored id, once each, in string order. */
    method GetParametersAvailableOnAgent() returns (parameters: seq<string>)
      requires configurationService.Valid()
      ensures Sorted(parameters, StringOrder())
      ensures forall p :: p in parameters <==> exists k | k in configurationService.Numbers() :: p == ParameterName(k)
      ensures |parameters| == |configurationService.Numbers()|
    {
      var ids := configurationService.GetAllSharedBuildNumberIds();
      ghost var names := ParameterNames(ids[..]);
      ParameterNamesDistinct(ids[..]);
      parameters := [];
      assert |names| == ids.Length;
      for i := 0 to ids.Length
        modifies {}
        invariant Sorted(parameters, StringOrder())
        invariant |parameters| == i
        invariant forall p :: p in parameters <==> p in names[..i]
      {
        var parameter := ParameterName(ids[i]);
        assert parameter == names[i];
        InsertNextName(names, i, parameters);
        parameters := Add(parameters, parameter, StringOrder());
      }
      assert names[..ids.Length] == names;
      assert names == ParameterNames(ids[..]);
      assert forall k :: k in configurationService.Numbers() <==> k in ids[..];
      ParametersOfIds(ids[..], configurationService.Numbers(), parameters);
    }

    /**
     * `describe`: a parameter without the prefix, or whose id cannot be read, has no
     * description; otherwise it is the name of that shared build number, or the empty
     * string when no number has that id.
     */
    method Describe(parameterName: string) returns (description: NString)
      requires configurationService.Valid()
      ensures !StartsWith(parameterName, ParameterPrefix) ==> description == Null
      ensures StartsWith(parameterName, ParameterPrefix) && ExtractBuildIdFromParameter(parameterName).None? ==>
        description == Null
      ensures StartsWith(parameterName, ParameterPrefix) && ExtractBuildIdFromParameter(parameterName).Some? ==>
        var id := ExtractBuildIdFromParameter(parameterName).value;
        description == if id in configurationService.Numbers() then configurationService.Numbers()[id].name else Str("")
    {
      if !StartsWith(parameterName, ParameterPrefix) {
        return Null;
      }
      var id := ExtractBuildIdFromParameter(parameterName);
      if id.None? {
        return Null;
      }
      description := configurationService.GetSharedBuildNumberName(id.value);
    }

    /** `extractSharedBuildNumberParameters`: the references, among all the values, that start with the prefix. */
    method ExtractSharedBuildNumberParameters(parameters: set<string>, references: string -> seq<string>)
      returns (pluginParameters: set<string>)
      ensures pluginParameters == PluginParameters(parameters, references)
    {
      pluginParameters := {};
      var rest := parameters;
      while rest != {}
        invariant rest <= parameters
        invariant forall x :: x in pluginParameters <==>
          StartsWith(x, ParameterPrefix) && exists p | p in parameters - rest :: x in references(p)
        decreases rest
      {
        var parameter :| parameter in rest;
        var found := references(parameter);
        for j := 0 to |found|
          invariant forall x :: x in pluginParameters <==>
            StartsWith(x, ParameterPrefix) && ((exists p | p in parameters - rest :: x in references(p)) || x in found[..j])
        {
          if StartsWith(found[j], ParameterPrefix) {
            pluginParameters := pluginParameters + {found[j]};
          }
          assert found[..j + 1] == found[..j] + [found[j]];
        }
        assert found[..|found|] == found;
        rest := rest - {parameter};
      }
      assert parameters - rest == parameters;
    }

    /**
     * One pass of the loop of `updateSharedParameters`: a parameter that names a stored
     * number gets that number's text at its current counter, and the counter moves on; any
     * other parameter is skipped.  When the text cannot be built the counter has still moved
     * on and the exception (`thrown`) leaves the loop; `IOException` is the only one caught.
     */
    method UpdateSharedParameter(context: BuildStartContext, parameter: string, timestamp: string, now: DateFormatter,
                                 ghost numbers: map<int, SharedBuildNumber>)
      returns (thrown: bool)
      requires configurationService.Valid() && context !in configurationService.Repr
      requires numbers == configurationService.Numbers()
      modifies configurationService.Repr, context
      ensures configurationService.Valid() && configurationService.Repr == old(configurationService.Repr)
      ensures configurationService.configuration == old(configurationService.configuration)
      ensures configurationService.Sequence() == old(configurationService.Sequence())
      ensures thrown == Throws(ExtractBuildIdFromParameter, numbers, parameter, now)
      ensures configurationService.Numbers() == Advanced(ExtractBuildIdFromParameter, numbers, parameter)
      ensures context.sharedParameters == WithShared(ExtractBuildIdFromParameter, numbers, parameter, old(context.sharedParameters), now)
      ensures configurationService.configFile ==
        if Names(ExtractBuildIdFromParameter, parameter, numbers) then
          FileText(configurationService.configFileHeader, timestamp, configurationService.Sequence(),
                   Advanced(ExtractBuildIdFromParameter, numbers, parameter))
        else old(configurationService.configFile)
      ensures !Names(ExtractBuildIdFromParameter, parameter, numbers) ==> unchanged(configurationService.Repr)
    {
      thrown := false;
      var id := ExtractBuildIdFromParameter(parameter);
      if id.Some? {
        var buildNumber;
        buildNumber, thrown := configurationService.GetAndIncrementFormattedSharedBuildNumber(id.value, timestamp, now);
        if thrown || buildNumber.Null? {
          return;
        }
        assert NumberText(numbers[id.value], numbers[id.value].counter, now) == Some(buildNumber.s);
        AddSharedParameter(context, parameter, buildNumber.s);
      }
    }

    /** `buildStartContext.addSharedParameter`, which leaves the service as it is. */
    method AddSharedParameter(context: BuildStartContext, parameter: string, value: string)
      requires configurationService.Valid() && context !in configurationService.Repr
      modifies context
      ensures configurationService.Valid() && configurationService.Repr == old(configurationService.Repr)
      ensures configurationService.configuration == old(configurationService.configuration)
      ensures context.sharedParameters == old(context.sharedParameters)[parameter := value]
      ensures configurationService.Numbers() == old(configurationService.Numbers())
      ensures configurationService.Sequence() == old(configurationService.Sequence())
      ensures configurationService.configFile == old(configurationService.configFile)
    {
      context.AddSharedParameter(parameter, value);
    }

    /**
     * `updateSharedParameters`: every plugin parameter that names a stored number gets a
     * value, and each number's counter moves on once per parameter that names it; the others
     * are skipped without affecting the rest.  When a number cannot be built, its counter has
     * moved on and the exception (`thrown`) ends the loop: `done` are the parameters handled
     * before it and `failed` is the one that threw.
     */
    method UpdateSharedParameters(context: BuildStartContext, pluginParameters: set<string>, timestamp: string, now: DateFormatter)
      returns (thrown: bool, ghost done: set<string>, ghost failed: string, ghost issued: map<string, int>)
      requires configurationService.Valid() && context !in configurationService.Repr
      modifies configurationService.Repr, context
      ensures configurationService.Valid() && configurationService.Repr == old(configurationService.Repr)
      ensures configurationService.configuration == old(configurationService.configuration)
      ensures configurationService.Sequence() == old(configurationService.Sequence())
      ensures done <= pluginParameters && (!thrown ==> done == pluginParameters)
      ensures thrown ==>
        && failed in pluginParameters && failed !in done
        && Throws(ExtractBuildIdFromParameter, Incremented(ExtractBuildIdFromParameter, old(configurationService.Numbers()), done), failed, now)
      ensures configurationService.Numbers() ==
        Incremented(ExtractBuildIdFromParameter, old(configurationService.Numbers()), if thrown then done + {failed} else done)
      ensures IssuedNumbers(ExtractBuildIdFromParameter, old(configurationService.Numbers()), configurationService.Numbers(), done,
                            context.sharedParameters, old(context.sharedParameters), issued, now)
      ensures Applied(ExtractBuildIdFromParameter, old(configurationService.Numbers()), if thrown then done + {failed} else done) == {} ==>
        configurationService.configFile == old(configurationService.configFile)
      ensures Applied(ExtractBuildIdFromParameter, old(configurationService.Numbers()), if thrown then done + {failed} else done) != {} ==>
        configurationService.configFile == configurationService.SavedFile(timestamp)
    {
      ghost var numbers, before := configurationService.Numbers(), context.sharedParameters;
      NothingIssuedYet(ExtractBuildIdFromParameter, numbers, before, now);
      issued := map[];
      thrown, done, failed := false, {}, "";
      var rest := pluginParameters;
      ghost var saved := false;
      while rest != {}
        invariant rest <= pluginParameters && done == pluginParameters - rest && !thrown
        invariant configurationService.Valid() && configurationService.Repr == old(configurationService.Repr)
        invariant configurationService.configuration == old(configurationService.configuration)
        invariant configurationService.Sequence() == old(configurationService.Sequence())
        invariant configurationService.Numbers() == Incremented(ExtractBuildIdFromParameter, numbers, done)
        invariant IssuedNumbers(ExtractBuildIdFromParameter, numbers, Incremented(ExtractBuildIdFromParameter, numbers, done), done, context.sharedParameters, before, issued, now)
        invariant saved == (Applied(ExtractBuildIdFromParameter, numbers, done) != {})
        invariant configurationService.configFile ==
          if saved then FileText(configurationService.configFileHeader, timestamp, old(configurationService.Sequence()),
                                 Incremented(ExtractBuildIdFromParameter, numbers, done))
          else old(configurationService.configFile)
        decreases rest
      {
        var parameter :| parameter in rest;
        var threw;
        threw, issued := HandOut(context, parameter, timestamp, now, numbers, done, before, issued, saved,
                                 old(configurationService.configFile));
        if threw {
          thrown, failed := true, parameter;
          return;
        }
        saved := saved || Names(ExtractBuildIdFromParameter, parameter, numbers);
        done := done + {parameter};
        rest := rest - {parameter};
      }
      assert done == pluginParameters;
    }

    /**
     * One pass of the loop in `updateSharedParameters`, stated against the passes before it:
     * `done` are the parameters already handled, starting from `numbers`, and `saved` tells
     * whether one of them named a stored number (so the file has been rewritten).  When the
     * pass throws, `parameter`'s counter has moved on but it counts as not handled.
     */
    method HandOut(context: BuildStartContext, parameter: string, timestamp: string, now: DateFormatter,
                   ghost numbers: map<int, SharedBuildNumber>, ghost done: set<string>, ghost before: map<string, string>,
                   ghost issued: map<string, int>, ghost saved: bool, ghost original: seq<string>)
      returns (thrown: bool, ghost issued': map<string, int>)
      requires configurationService.Valid() && context !in configurationService.Repr
      requires parameter !in done
      requires configurationService.Numbers() == Incremented(ExtractBuildIdFromParameter, numbers, done)
      requires IssuedNumbers(ExtractBuildIdFromParameter, numbers, Incremented(ExtractBuildIdFromParameter, numbers, done), done,
                             context.sharedParameters, before, issued, now)
      requires saved == (Applied(ExtractBuildIdFromParameter, numbers, done) != {})
      requires configurationService.configFile ==
        if saved then FileText(configurationService.configFileHeader, timestamp, configurationService.Sequence(),
                               Incremented(ExtractBuildIdFromParameter, numbers, done))
        else original
      modifies configurationService.Repr, context
      ensures configurationService.Valid() && configurationService.Repr == old(configurationService.Repr)
      ensures configurationService.configuration == old(configurationService.configuration)
      ensures configurationService.Sequence() == old(configurationService.Sequence())
      ensures thrown == Throws(ExtractBuildIdFromParameter, Incremented(ExtractBuildIdFromParameter, numbers, done), parameter, now)
      ensures configurationService.Numbers() == Incremented(ExtractBuildIdFromParameter, numbers, done + {parameter})
      ensures IssuedNumbers(ExtractBuildIdFromParameter, numbers, Incremented(ExtractBuildIdFromParameter, numbers, done + {parameter}),
                            if thrown then done else done + {parameter}, context.sharedParameters, before, issued', now)
      ensures (saved || Names(ExtractBuildIdFromParameter, parameter, numbers)) == (Applied(ExtractBuildIdFromParameter, numbers, done + {parameter}) != {})
      ensures configurationService.configFile ==
        if saved || Names(ExtractBuildIdFromParameter, parameter, numbers)
        then FileText(configurationService.configFileHeader, timestamp, old(configurationService.Sequence()),
                      Incremented(ExtractBuildIdFromParameter, numbers, done + {parameter}))
        else original
    {
      ghost var current, shared := configurationService.Numbers(), context.sharedParameters;
      IssuedStep(ExtractBuildIdFromParameter, numbers, done, parameter, current, shared, before, issued, now);
      ghost var file := configurationService.configFile;
      thrown := UpdateSharedParameter(context, parameter, timestamp, now, current);
      FileStep(file, configurationService.configFile, original, saved,
               Names(ExtractBuildIdFromParameter, parameter, numbers), configurationService.configFileHeader, timestamp,
               old(configurationService.Sequence()), configurationService.Sequence(), current,
               Advanced(ExtractBuildIdFromParameter, current, parameter), Incremented(ExtractBuildIdFromParameter, numbers, done + {parameter}));
      issued' := if thrown then issued else WithIssued(ExtractBuildIdFromParameter, current, parameter, issued);
    }

    /**
     * `updateParameters` up to the update of the build number: nothing happens for a build
     * without a build type, or when no parameter value references a shared build number;
     * otherwise the referenced numbers are handed out as `updateSharedParameters` does, with
     * the same account of values, counters and the file.
     */
    method UpdateParameters(context: BuildStartContext, hasBuildType: bool, buildValues: set<string>,
                            runnerValues: seq<set<string>>, references: string -> seq<string>,
                            timestamp: string, now: DateFormatter)
      returns (thrown: bool, ghost done: set<string>, ghost failed: string, ghost issued: map<string, int>)
      requires configurationService.Valid() && context !in configurationService.Repr
      modifies configurationService.Repr, context
      ensures configurationService.Valid() && configurationService.Repr == old(configurationService.Repr)
      ensures configurationService.Sequence() == old(configurationService.Sequence())
      ensures var plugin := PluginParameters(AllValues(buildValues, runnerValues), references);
        if !hasBuildType || plugin == {} then
          && !thrown
          && configurationService.Numbers() == old(configurationService.Numbers())
          && configurationService.configFile == old(configurationService.configFile)
          && context.sharedParameters == old(context.sharedParameters)
        else
          && done <= plugin && (!thrown ==> done == plugin)
          && (thrown ==>
                && failed in plugin && failed !in done
                && Throws(ExtractBuildIdFromParameter, Incremented(ExtractBuildIdFromParameter, old(configurationService.Numbers()), done), failed, now))
          && configurationService.Numbers() ==
               Incremented(ExtractBuildIdFromParameter, old(configurationService.Numbers()), if thrown then done + {failed} else done)
          && context.sharedParameters.Keys == old(context.sharedParameters).Keys + Applied(ExtractBuildIdFromParameter, old(configurationService.Numbers()), done)
          && IssuedNumbers(ExtractBuildIdFromParameter, old(configurationService.Numbers()), configurationService.Numbers(), done,
                           context.sharedParameters, old(context.sharedParameters), issued, now)
          && (Applied(ExtractBuildIdFromParameter, old(configurationService.Numbers()), if thrown then done + {failed} else done) == {} ==>
                configurationService.configFile == old(configurationService.configFile))
          && (Applied(ExtractBuildIdFromParameter, old(configurationService.Numbers()), if thrown then done + {failed} else done) != {} ==>
                configurationService.configFile == configurationService.SavedFile(timestamp))
    {
      thrown, done, failed, issued := false, {}, "", map[];
      if !hasBuildType {
        return;
      }
      var parameters := buildValues;
      for i := 0 to |runnerValues|
        invariant parameters == AllValues(buildValues, runnerValues[..i])
      {
        assert runnerValues[..i + 1][..i] == runnerValues[..i];
        parameters := parameters + runnerValues[i];
      }
      assert runnerValues[..|runnerValues|] == runnerValues;
      var pluginParameters := ExtractSharedBuildNumberParameters(parameters, references);
      if pluginParameters == {} {
        return;
      }
      thrown, done, failed, issued := UpdateSharedParameters(context, pluginParameters, timestamp, now);
    }
  }
}
