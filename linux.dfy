/**
 * The Linux system-properties locator.  On a Linux host it tries the release files of the
 * known distribution flavours in a fixed order, records the first flavour whose file can be
 * read and parses that file's lines into the property table the agent and server publish.
 *
 * File system access is not modelled: what each release file holds (or that it is absent or
 * unreadable) is part of the `Host` value passed in, and the RedHat regular expression is a
 * function parameter.
 */
module LinuxLocator {
  import opened Wrappers
  import opened JavaString

  const PluginVersionKey := "nwts.plugin.linux.system.properties.version"
  const FlavorKey := "os.linux.flavor"
  const DistNameKey := "os.linux.distribution.name"
  const DistVersionKey := "os.linux.distribution.version"

  /** The name the SuSE parser stores for a brand file whose first line is `SLES`. */
  const SlesName := "SuSE Linux Enterprise Server"

  datatype Flavor = SuSE | RedHat | Debian

  /** `Flavor.values()`: the order in which the flavours are tried. */
  const Flavors: seq<Flavor> := [SuSE, RedHat, Debian]

  /** `flavor.name()`, the value stored under `os.linux.flavor`. */
  function FlavorName(f: Flavor): (name: string)
    ensures |name| >= 4
  {
    match f
    case SuSE => "SuSE"
    case RedHat => "RedHat"
    case Debian => "Debian"
  }

  /**
   * What reading a text file line by line yields: the file does not exist, it exists but
   * reading it fails with an `IOException`, or its lines.
   */
  datatype ReleaseFile = Missing | Unreadable | Lines(lines: seq<string>)

  /** `/etc/lsb-release` as `java.util.Properties` sees it. */
  datatype LsbRelease = LsbMissing | LsbUnreadable | LsbLoaded(entries: map<string, string>)

  /** `version.properties` in the plugin root, as `determinePluginVersion` sees it. */
  datatype VersionFile = VersionMissing | VersionUnreadable | VersionLoaded(entries: map<string, string>)

  /**
   * The outcome of the RedHat regular expression on the first line of `/etc/redhat-release`:
   * no match, or the texts of group 1 (the distribution) and group 3 (the version number).
   */
  datatype RedHatMatch = NoMatch | Match(dist: string, version: string)

  /** Everything the locator reads from its environment. */
  datatype Host = Host(
    osName: NString,                 // System.getProperty("os.name")
    suseBrand: ReleaseFile,          // /etc/SuSE-brand
    redHatRelease: ReleaseFile,      // /etc/redhat-release
    debianVersion: ReleaseFile,      // /etc/debian_version
    suseRelease: ReleaseFile,        // /etc/SuSE-release
    lsbRelease: LsbRelease)          // /etc/lsb-release

  /**
   * The property table after a step, and whether that step ended in an unchecked exception
   * (an `ArrayIndexOutOfBoundsException` or a `NullPointerException`) that escapes the locator.
   */
  datatype Outcome = Outcome(entries: map<string, string>, thrown: bool)

  /** `"linux".equalsIgnoreCase(System.getProperty("os.name"))`; false for a missing property. */
  predicate IsLinux(osName: NString)
  {
    osName.Str? && EqualsIgnoreCase("linux", osName.s)
  }

  function FlavorFile(host: Host, f: Flavor): ReleaseFile
  {
    match f
    case SuSE => host.suseBrand
    case RedHat => host.redHatRelease
    case Debian => host.debianVersion
  }

  // ---------------------------------------------------------------------------
  // The flavour parsers, as functions of the table they write into

  /** The third line of `/etc/SuSE-release` when it starts, ignoring case, with `patchlevel`. */
  function PatchLine(release: ReleaseFile): Option<string>
  {
    if release.Lines? && |release.lines| > 2 && StartsWith(ToLower(release.lines[2]), "patchlevel")
    then Some(release.lines[2])
    else None
  }

  /**
   * The SuSE parser.  An empty brand file adds nothing.  Otherwise the distribution name is
   * the trimmed first line, `SLES` in any case standing for SuSE Linux Enterprise Server.  A
   * second line that starts, ignoring case, with `version` and contains `=` gives the version:
   * the trimmed text after the first `=`, except that for SLES with a dot-free version and a
   * patch-level line in `/etc/SuSE-release` the patch-level line is split in its place and its
   * second part is what gets stored (and a patch-level line without `=` has no second part,
   * so the lookup throws).
   */
  function SuseProperties(props: map<string, string>, lines: seq<string>, release: ReleaseFile): Outcome
  {
    if |lines| == 0 then Outcome(props, false)
    else
      var dist := Trim(lines[0]);
      var isSles := EqualsIgnoreCase("SLES", dist);
      var named := props[DistNameKey := if isSles then SlesName else dist];
      if |lines| > 1 then SuseVersion(named, lines[1], isSles, release) else Outcome(named, false)
  }

  /** The part of the SuSE parser that handles the brand file's second line. */
  function SuseVersion(props: map<string, string>, line: string, isSles: bool, release: ReleaseFile): Outcome
  {
    if StartsWith(ToLower(line), "version") && '=' in line then
      var version := Trim(SplitOnce(line, '=')[1]);
      if isSles && '.' !in version && PatchLine(release).Some? then
        var patch := SplitOnce(PatchLine(release).value, '=');
        if |patch| > 1 then Outcome(props[DistVersionKey := Trim(patch[1])], false)
        else Outcome(props, true)
      else Outcome(props[DistVersionKey := version], false)
    else Outcome(props, false)
  }

  /** The RedHat parser: the trimmed groups of a match on the first line, nothing otherwise. */
  function RedHatProperties(props: map<string, string>, lines: seq<string>, matcher: string -> RedHatMatch): map<string, string>
  {
    if |lines| == 0 then props
    else
      match matcher(lines[0])
      case NoMatch => props
      case Match(dist, version) => props[DistNameKey := Trim(dist)][DistVersionKey := Trim(version)]
  }

  /**
   * The Debian parser.  With `/etc/lsb-release` present it stores the trimmed `DISTRIB_ID`
   * and `DISTRIB_RELEASE` (a missing one is a null reference, and trimming it throws); when
   * that file cannot be read it stores nothing; without it the name is `Debian` and the
   * version is the trimmed first line of `/etc/debian_version`, if there is one.
   */
  function DebianProperties(props: map<string, string>, lines: seq<string>, lsb: LsbRelease): Outcome
  {
    match lsb
    case LsbLoaded(entries) =>
      if "DISTRIB_ID" !in entries then Outcome(props, true)
      else
        var named := props[DistNameKey := Trim(entries["DISTRIB_ID"])];
        if "DISTRIB_RELEASE" !in entries then Outcome(named, true)
        else Outcome(named[DistVersionKey := Trim(entries["DISTRIB_RELEASE"])], false)
    case LsbUnreadable => Outcome(props, false)
    case LsbMissing =>
      var named := props[DistNameKey := "Debian"];
      if |lines| > 0 then Outcome(named[DistVersionKey := Trim(lines[0])], false)
      else Outcome(named, false)
  }

  /** `flavor.locateLinuxProperties(lines, properties)`, dispatched on the flavour. */
  function ParseFlavor(f: Flavor, lines: seq<string>, host: Host, matcher: string -> RedHatMatch, props: map<string, string>): Outcome
  {
    match f
    case SuSE => SuseProperties(props, lines, host.suseRelease)
    case RedHat => Outcome(RedHatProperties(props, lines, matcher), false)
    case Debian => DebianProperties(props, lines, host.lsbRelease)
  }

  /**
   * The flavour loop from position `i` on: the first flavour whose file yields lines is
   * recorded under `os.linux.flavor` and parsed, and no later flavour is looked at; a missing
   * or unreadable file moves on to the next flavour.
   */
  function LocateFrom(host: Host, matcher: string -> RedHatMatch, i: nat, props: map<string, string>): Outcome
    requires i <= |Flavors|
    decreases |Flavors| - i
  {
    if i == |Flavors| then Outcome(props, false)
    else
      match FlavorFile(host, Flavors[i])
      case Lines(lines) => ParseFlavor(Flavors[i], lines, host, matcher, props[FlavorKey := FlavorName(Flavors[i])])
      case _ => LocateFrom(host, matcher, i + 1, props)
  }

  /** `locateLinuxProperties(properties)`: nothing happens unless the host runs Linux. */
  function LinuxProperties(host: Host, matcher: string -> RedHatMatch, props: map<string, string>): Outcome
  {
    if IsLinux(host.osName) then LocateFrom(host, matcher, 0, props) else Outcome(props, false)
  }

  /** `determinePluginVersion`: the plugin version is copied when the version file has one. */
  function PluginVersion(file: VersionFile, props: map<string, string>): map<string, string>
  {
    if file.VersionLoaded? && PluginVersionKey in file.entries
    then props[PluginVersionKey := file.entries[PluginVersionKey]]
    else props
  }

  /** `locateProperties(pluginRoot)`: the table it returns, or None when an exception escapes. */
  function LocatedProperties(file: VersionFile, host: Host, matcher: string -> RedHatMatch): Option<map<string, string>>
  {
    var outcome := LinuxProperties(host, matcher, PluginVersion(file, map[]));
    if outcome.thrown then None else Some(outcome.entries)
  }

  // ---------------------------------------------------------------------------
  // Properties of the locator

  /** `a` and `b` hold the same entries for every key outside `keys`. */
  ghost predicate SameOutside(a: map<string, string>, b: map<string, string>, keys: set<string>)
  {
    forall k :: k !in keys ==> (k in a <==> k in b) && (k in a ==> a[k] == b[k])
  }

  /** The keys the flavour loop may write. */
  const LinuxKeys: set<string> := {FlavorKey, DistNameKey, DistVersionKey}

  /** Every flavour parser writes the distribution name and version and nothing else. */
  lemma ParseFlavorWritesDistKeys(f: Flavor, lines: seq<string>, host: Host, matcher: string -> RedHatMatch, props: map<string, string>)
    ensures SameOutside(ParseFlavor(f, lines, host, matcher, props).entries, props, {DistNameKey, DistVersionKey})
  {
    var r := ParseFlavor(f, lines, host, matcher, props).entries;
    if f == SuSE && |lines| > 0 {
      var dist := Trim(lines[0]);
      var isSles := EqualsIgnoreCase("SLES", dist);
      var named := props[DistNameKey := if isSles then SlesName else dist];
      if |lines| > 1 {
        SuseVersionWritesVersionKey(named, lines[1], isSles, host.suseRelease);
      }
    }
  }

  lemma SuseVersionWritesVersionKey(props: map<string, string>, line: string, isSles: bool, release: ReleaseFile)
    ensures SameOutside(SuseVersion(props, line, isSles, release).entries, props, {DistVersionKey})
  {
  }

  /** The flavour loop writes at most the flavour, distribution name and version keys. */
  lemma {:induction false} LocateFromWritesLinuxKeys(host: Host, matcher: string -> RedHatMatch, i: nat, props: map<string, string>)
    requires i <= |Flavors|
    ensures SameOutside(LocateFrom(host, matcher, i, props).entries, props, LinuxKeys)
    decreases |Flavors| - i
  {
    if i < |Flavors| {
      match FlavorFile(host, Flavors[i])
      case Lines(lines) =>
        ParseFlavorWritesDistKeys(Flavors[i], lines, host, matcher, props[FlavorKey := FlavorName(Flavors[i])]);
      case _ =>
        LocateFromWritesLinuxKeys(host, matcher, i + 1, props);
    }
  }

  /**
   * Off Linux the table is left as it was; on Linux only the flavour, distribution name and
   * distribution version keys can change.
   */
  lemma LinuxPropertiesFrame(host: Host, matcher: string -> RedHatMatch, props: map<string, string>)
    ensures !IsLinux(host.osName) ==> LinuxProperties(host, matcher, props) == Outcome(props, false)
    ensures SameOutside(LinuxProperties(host, matcher, props).entries, props, LinuxKeys)
  {
    if IsLinux(host.osName) {
      LocateFromWritesLinuxKeys(host, matcher, 0, props);
    }
  }

  /** The first flavour from `i` on whose file yields lines decides the outcome. */
  lemma {:induction false} LocateFromSkips(host: Host, matcher: string -> RedHatMatch, i: nat, k: nat, props: map<string, string>)
    requires i <= k < |Flavors| && FlavorFile(host, Flavors[k]).Lines?
    requires forall j :: i <= j < k ==> !FlavorFile(host, Flavors[j]).Lines?
    ensures LocateFrom(host, matcher, i, props)
         == ParseFlavor(Flavors[k], FlavorFile(host, Flavors[k]).lines, host, matcher, props[FlavorKey := FlavorName(Flavors[k])])
    decreases k - i
  {
    if i < k {
      LocateFromSkips(host, matcher, i + 1, k, props);
    }
  }

  /**
   * On Linux the flavours are tried in the order SuSE, RedHat, Debian: the first whose file
   * can be read is recorded under `os.linux.flavor` before its parser runs on that file's
   * lines, and the files of later flavours play no part.
   */
  lemma FirstReadableFlavorWins(host: Host, matcher: string -> RedHatMatch, props: map<string, string>, k: nat)
    requires IsLinux(host.osName)
    requires k < |Flavors| && FlavorFile(host, Flavors[k]).Lines?
    requires forall j :: 0 <= j < k ==> !FlavorFile(host, Flavors[j]).Lines?
    ensures LinuxProperties(host, matcher, props)
         == ParseFlavor(Flavors[k], FlavorFile(host, Flavors[k]).lines, host, matcher, props[FlavorKey := FlavorName(Flavors[k])])
    ensures FlavorKey in LinuxProperties(host, matcher, props).entries
    ensures LinuxProperties(host, matcher, props).entries[FlavorKey] == FlavorName(Flavors[k])
  {
    LocateFromSkips(host, matcher, 0, k, props);
    ParseFlavorWritesDistKeys(Flavors[k], FlavorFile(host, Flavors[k]).lines, host, matcher, props[FlavorKey := FlavorName(Flavors[k])]);
  }

  lemma {:induction false} LocateFromNoneReadable(host: Host, matcher: string -> RedHatMatch, i: nat, props: map<string, string>)
    requires i <= |Flavors|
    requires forall j :: i <= j < |Flavors| ==> !FlavorFile(host, Flavors[j]).Lines?
    ensures LocateFrom(host, matcher, i, props) == Outcome(props, false)
    decreases |Flavors| - i
  {
    if i < |Flavors| {
      LocateFromNoneReadable(host, matcher, i + 1, props);
    }
  }

  /** When no flavour file can be read the table is left as it was, even on Linux. */
  lemma NoReadableFlavor(host: Host, matcher: string -> RedHatMatch, props: map<string, string>)
    requires forall j :: 0 <= j < |Flavors| ==> !FlavorFile(host, Flavors[j]).Lines?
    ensures LinuxProperties(host, matcher, props) == Outcome(props, false)
  {
    LocateFromNoneReadable(host, matcher, 0, props);
  }

  /** `os.name` is compared with `linux` ignoring case, and a missing `os.name` is not Linux. */
  lemma IsLinuxIgnoresCase()
    ensures IsLinux(Str("Linux")) && IsLinux(Str("LINUX")) && IsLinux(Str("linux"))
    ensures !IsLinux(Null) && !IsLinux(Str("Mac OS X")) && !IsLinux(Str("linux "))
  {
    assert ToLower("Linux") == "linux";
    assert ToLower("LINUX") == "linux";
    assert ToLower("linux") == "linux";
    assert |ToLower("Mac OS X")| != |ToLower("linux")|;
    assert |ToLower("linux ")| != |ToLower("linux")|;
  }

  /** Splitting at the first `=` recovers the text before and after it. */
  lemma SplitAtFirst(s: string, before: string, after: string)
    requires s == before + "=" + after && '=' !in before
    ensures '=' in s && SplitOnce(s, '=') == [before, after]
  {
    assert s[|before|] == '=';
    var parts := SplitOnce(s, '=');
    var i := |parts[0]|;
    assert s[i] == '=';
    assert parts[0] == before;
    assert parts[1] == s[i + 1..] == after;
  }

  /** An empty brand file adds nothing; otherwise the name is the trimmed first line, SLES spelled out. */
  lemma SuseName(props: map<string, string>, lines: seq<string>, release: ReleaseFile)
    ensures |lines| == 0 ==> SuseProperties(props, lines, release) == Outcome(props, false)
    ensures |lines| > 0 ==>
      var dist := Trim(lines[0]);
      var r := SuseProperties(props, lines, release).entries;
      DistNameKey in r && r[DistNameKey] == (if EqualsIgnoreCase("SLES", dist) then SlesName else dist)
  {
    if |lines| > 1 {
      var dist := Trim(lines[0]);
      var isSles := EqualsIgnoreCase("SLES", dist);
      SuseVersionWritesVersionKey(props[DistNameKey := if isSles then SlesName else dist], lines[1], isSles, release);
    }
  }

  /**
   * A second brand-file line that starts with `version` gives the trimmed text after its
   * first `=` as the version, unless the SLES patch-level rule applies.
   */
  lemma SuseVersionAfterEquals(props: map<string, string>, lines: seq<string>, release: ReleaseFile, before: string, after: string)
    requires |lines| > 1 && lines[1] == before + "=" + after && '=' !in before
    requires StartsWith(ToLower(lines[1]), "version")
    requires !EqualsIgnoreCase("SLES", Trim(lines[0])) || '.' in Trim(after) || PatchLine(release).None?
    ensures !SuseProperties(props, lines, release).thrown
    ensures DistVersionKey in SuseProperties(props, lines, release).entries
    ensures SuseProperties(props, lines, release).entries[DistVersionKey] == Trim(after)
  {
    SplitAtFirst(lines[1], before, after);
  }

  /** Without a second line that starts with `version` and holds `=`, no version is stored. */
  lemma SuseWithoutVersion(props: map<string, string>, lines: seq<string>, release: ReleaseFile)
    requires |lines| <= 1 || !StartsWith(ToLower(lines[1]), "version") || '=' !in lines[1]
    ensures !SuseProperties(props, lines, release).thrown
    ensures var r := SuseProperties(props, lines, release).entries;
      (DistVersionKey in r <==> DistVersionKey in props) && (DistVersionKey in props ==> r[DistVersionKey] == props[DistVersionKey])
  {
  }

  /**
   * The SLES patch-level rule as written: for SLES with a dot-free version and a third line of
   * `/etc/SuSE-release` that starts with `patchlevel`, the stored version is the patch level
   * alone, not the version with the patch level appended.
   */
  lemma SlesStoresPatchLevel(props: map<string, string>, lines: seq<string>, release: ReleaseFile,
                             before: string, after: string, patchBefore: string, patchAfter: string)
    requires |lines| > 1 && lines[1] == before + "=" + after && '=' !in before
    requires StartsWith(ToLower(lines[1]), "version")
    requires EqualsIgnoreCase("SLES", Trim(lines[0])) && '.' !in Trim(after)
    requires release.Lines? && |release.lines| > 2 && StartsWith(ToLower(release.lines[2]), "patchlevel")
    requires release.lines[2] == patchBefore + "=" + patchAfter && '=' !in patchBefore
    ensures !SuseProperties(props, lines, release).thrown
    ensures DistVersionKey in SuseProperties(props, lines, release).entries
    ensures SuseProperties(props, lines, release).entries[DistVersionKey] == Trim(patchAfter)
  {
    SuseUnfold(props, lines, release);
    SlesVersionFromPatch(props[DistNameKey := SlesName], lines[1], release, before, after, release.lines[2], patchBefore, patchAfter);
  }

  /** Under the same rule, a patch-level line without `=` has no second part, and the parser throws. */
  lemma SlesPatchLevelWithoutEquals(props: map<string, string>, lines: seq<string>, release: ReleaseFile, before: string, after: string)
    requires |lines| > 1 && lines[1] == before + "=" + after && '=' !in before
    requires StartsWith(ToLower(lines[1]), "version")
    requires EqualsIgnoreCase("SLES", Trim(lines[0])) && '.' !in Trim(after)
    requires release.Lines? && |release.lines| > 2 && StartsWith(ToLower(release.lines[2]), "patchlevel")
    requires '=' !in release.lines[2]
    ensures SuseProperties(props, lines, release).thrown
  {
    SuseUnfold(props, lines, release);
    SlesPatchWithoutEqualsThrows(props[DistNameKey := SlesName], lines[1], release, before, after, release.lines[2]);
  }

  /** The SuSE parser on a brand file of two or more lines is its second-line step after the name. */
  lemma SuseUnfold(props: map<string, string>, lines: seq<string>, release: ReleaseFile)
    requires |lines| > 1
    ensures var isSles := EqualsIgnoreCase("SLES", Trim(lines[0]));
      SuseProperties(props, lines, release)
        == SuseVersion(props[DistNameKey := if isSles then SlesName else Trim(lines[0])], lines[1], isSles, release)
  {
  }

  /** The second-line step for SLES when the patch-level line splits at its first `=`. */
  lemma SlesVersionFromPatch(props: map<string, string>, line: string, release: ReleaseFile, before: string, after: string,
                             patch: string, patchBefore: string, patchAfter: string)
    requires line == before + "=" + after && '=' !in before && StartsWith(ToLower(line), "version")
    requires '.' !in Trim(after) && PatchLine(release) == Some(patch)
    requires patch == patchBefore + "=" + patchAfter && '=' !in patchBefore
    ensures SuseVersion(props, line, true, release) == Outcome(props[DistVersionKey := Trim(patchAfter)], false)
  {
    SplitAtFirst(line, before, after);
    SplitAtFirst(patch, patchBefore, patchAfter);
  }

  /** The second-line step for SLES throws when the patch-level line has no `=`. */
  lemma SlesPatchWithoutEqualsThrows(props: map<string, string>, line: string, release: ReleaseFile, before: string, after: string,
                                     patch: string)
    requires line == before + "=" + after && '=' !in before && StartsWith(ToLower(line), "version")
    requires '.' !in Trim(after) && PatchLine(release) == Some(patch) && '=' !in patch
    ensures SuseVersion(props, line, true, release) == Outcome(props, true)
  {
    SplitAtFirst(line, before, after);
  }

  /**
   * SLES 11 SP3: brand file `SLES` / `VERSION = 11`, release file with `PATCHLEVEL = 3` on its
   * third line.  The version stored is `3`, the patch level alone: the code stores the
   * reassigned `parts[1]`, not the `version` it builds from both lines.
   */
  lemma Sles11PatchLevelExample()
    ensures var r := SuseProperties(map[], ["SLES", "VERSION = 11"],
                                    Lines(["SUSE Linux Enterprise Server 11 (x86_64)", "VERSION = 11", "PATCHLEVEL = 3"]));
      !r.thrown && DistVersionKey in r.entries && r.entries[DistVersionKey] == "3"
  {
    var lines := ["SLES", "VERSION = 11"];
    var release := Lines(["SUSE Linux Enterprise Server 11 (x86_64)", "VERSION = 11", "PATCHLEVEL = 3"]);
    ExampleTrims();
    ExampleLowerCase();
    VersionLineSplits();
    PatchLevelLineSplits();
    ElevenHasNoDot();
    SlesStoresPatchLevel(map[], lines, release, "VERSION ", " 11", "PATCHLEVEL ", " 3");
  }

  lemma ElevenHasNoDot()
    ensures '.' !in Trim(" 11")
  {
    TrimEleven();
  }

  lemma VersionLineSplits()
    ensures "VERSION = 11" == "VERSION " + "=" + " 11" && '=' !in "VERSION "
  {
    assert forall i | 0 <= i < |"VERSION "| :: "VERSION "[i] != '=';
  }

  lemma PatchLevelLineSplits()
    ensures "PATCHLEVEL = 3" == "PATCHLEVEL " + "=" + " 3" && '=' !in "PATCHLEVEL "
  {
    assert forall i | 0 <= i < |"PATCHLEVEL "| :: "PATCHLEVEL "[i] != '=';
  }

  lemma ExampleTrims()
    ensures Trim("SLES") == "SLES" && Trim(" 11") == "11" && Trim(" 3") == "3"
  {
    TrimKeeps("SLES");
    TrimEleven();
    TrimThree();
  }

  lemma TrimEleven()
    ensures Trim(" 11") == "11"
  {
    assert " 11"[1..] == "11";
    assert TrimStart("11") == "11";
    assert TrimStart(" 11") == "11";
    assert TrimEnd("11") == "11";
  }

  lemma TrimThree()
    ensures Trim(" 3") == "3"
  {
    assert " 3"[1..] == "3";
    assert TrimStart("3") == "3";
    assert TrimStart(" 3") == "3";
    assert TrimEnd("3") == "3";
  }

  lemma ExampleLowerCase()
    ensures StartsWith(ToLower("VERSION = 11"), "version")
    ensures StartsWith(ToLower("PATCHLEVEL = 3"), "patchlevel")
  {
    assert ToLower("VERSION = 11")[..7] == "version";
    assert ToLower("PATCHLEVEL = 3")[..10] == "patchlevel";
  }

  /**
   * Debian without `/etc/lsb-release`: the name is `Debian` and the version the trimmed
   * first line of `/etc/debian_version` when it has one.  With `/etc/lsb-release` read, the
   * trimmed `DISTRIB_ID` and `DISTRIB_RELEASE` are stored, and the parser throws when either
   * is missing.
   */
  lemma DebianNameAndVersion(props: map<string, string>, lines: seq<string>, lsb: LsbRelease)
    ensures var r := DebianProperties(props, lines, lsb);
      lsb.LsbMissing? ==>
        !r.thrown && DistNameKey in r.entries && r.entries[DistNameKey] == "Debian" &&
        (|lines| > 0 ==> DistVersionKey in r.entries && r.entries[DistVersionKey] == Trim(lines[0])) &&
        (|lines| == 0 ==> r.entries == props[DistNameKey := "Debian"])
    ensures var r := DebianProperties(props, lines, lsb);
      lsb.LsbLoaded? ==>
        (r.thrown <==> "DISTRIB_ID" !in lsb.entries || "DISTRIB_RELEASE" !in lsb.entries) &&
        (!r.thrown ==> r.entries == props[DistNameKey := Trim(lsb.entries["DISTRIB_ID"])][DistVersionKey := Trim(lsb.entries["DISTRIB_RELEASE"])])
    ensures lsb.LsbUnreadable? ==> DebianProperties(props, lines, lsb) == Outcome(props, false)
  {
  }

  /**
   * The table `locateProperties` returns keeps the plugin version from `version.properties`
   * whatever the flavour loop does, and off Linux it holds nothing else.
   */
  lemma PluginVersionKept(file: VersionFile, host: Host, matcher: string -> RedHatMatch)
    requires LocatedProperties(file, host, matcher).Some?
    ensures var r := LocatedProperties(file, host, matcher).value;
      (PluginVersionKey in r <==> file.VersionLoaded? && PluginVersionKey in file.entries) &&
      (PluginVersionKey in r ==> r[PluginVersionKey] == file.entries[PluginVersionKey])
    ensures !IsLinux(host.osName) ==> LocatedProperties(file, host, matcher).value == PluginVersion(file, map[])
  {
    LinuxPropertiesFrame(host, matcher, PluginVersion(file, map[]));
    assert PluginVersionKey !in LinuxKeys;
  }

  // ---------------------------------------------------------------------------
  // The property table and the locator's methods

  /** The `Map<String, String>` the locator fills in place. */
  class PropertyMap {
    var entries: map<string, string>

    constructor()
      ensures entries == map[]
    {
      entries := map[];
    }

    /** `put(key, value)`. */
    method Put(key: string, value: string)
      modifies this
      ensures entries == old(entries)[key := value]
    {
      entries := entries[key := value];
    }
  }

  method LocateSuse(lines: seq<string>, release: ReleaseFile, properties: PropertyMap) returns (thrown: bool)
    modifies properties
    ensures Outcome(properties.entries, thrown) == SuseProperties(old(properties.entries), lines, release)
  {
    thrown := false;
    if |lines| > 0 {
      var dist := Trim(lines[0]);
      var isSles := EqualsIgnoreCase("SLES", dist);
      properties.Put(DistNameKey, if isSles then SlesName else dist);
      if |lines| > 1 {
        thrown := LocateSuseVersion(lines[1], isSles, release, properties);
      }
    }
  }

  method LocateSuseVersion(line: string, isSles: bool, release: ReleaseFile, properties: PropertyMap) returns (thrown: bool)
    modifies properties
    ensures Outcome(properties.entries, thrown) == SuseVersion(old(properties.entries), line, isSles, release)
  {
    thrown := false;
    if StartsWith(ToLower(line), "version") {
      var parts := SplitOnce(line, '=');
      if |parts| > 1 {
        var version := Trim(parts[1]);
        if isSles && '.' !in version {
          parts, version := ReadPatchLevel(release, parts, version);
        }
        if |parts| > 1 {
          properties.Put(DistVersionKey, Trim(parts[1]));
        } else {
          thrown := true;
        }
      }
    }
  }

  /**
   * The SLES branch of the SuSE parser: a `patchlevel` third line of `/etc/SuSE-release` is
   * split in place of the version line, and its value is appended to `version`, which the
   * caller never stores afterwards.
   */
  method ReadPatchLevel(release: ReleaseFile, parts: seq<string>, version: string) returns (parts': seq<string>, version': string)
    ensures parts' == if PatchLine(release).Some? then SplitOnce(PatchLine(release).value, '=') else parts
  {
    parts', version' := parts, version;
    if release.Lines? && |release.lines| > 2 {
      var patchLine := release.lines[2];
      if StartsWith(ToLower(patchLine), "patchlevel") {
        parts' := SplitOnce(patchLine, '=');
        if |parts'| > 1 {
          version' := version + "." + Trim(parts'[1]);
        }
      }
    }
  }

  method LocateRedHat(lines: seq<string>, matcher: string -> RedHatMatch, properties: PropertyMap)
    modifies properties
    ensures properties.entries == RedHatProperties(old(properties.entries), lines, matcher)
  {
    if |lines| > 0 {
      var found := matcher(lines[0]);
      if found.Match? {
        properties.Put(DistNameKey, Trim(found.dist));
        properties.Put(DistVersionKey, Trim(found.version));
      }
    }
  }

  method LocateDebian(lines: seq<string>, lsb: LsbRelease, properties: PropertyMap) returns (thrown: bool)
    modifies properties
    ensures Outcome(properties.entries, thrown) == DebianProperties(old(properties.entries), lines, lsb)
  {
    thrown := false;
    match lsb
    case LsbLoaded(entries) =>
      if "DISTRIB_ID" !in entries {
        thrown := true;
        return;
      }
      properties.Put(DistNameKey, Trim(entries["DISTRIB_ID"]));
      if "DISTRIB_RELEASE" !in entries {
        thrown := true;
        return;
      }
      properties.Put(DistVersionKey, Trim(entries["DISTRIB_RELEASE"]));
    case LsbUnreadable =>
    case LsbMissing =>
      properties.Put(DistNameKey, "Debian");
      if |lines| > 0 {
        properties.Put(DistVersionKey, Trim(lines[0]));
      }
  }

  method LocateFlavor(f: Flavor, lines: seq<string>, host: Host, matcher: string -> RedHatMatch, properties: PropertyMap) returns (thrown: bool)
    modifies properties
    ensures Outcome(properties.entries, thrown) == ParseFlavor(f, lines, host, matcher, old(properties.entries))
  {
    match f
    case SuSE =>
      thrown := LocateSuse(lines, host.suseRelease, properties);
    case RedHat =>
      LocateRedHat(lines, matcher, properties);
      thrown := false;
    case Debian =>
      thrown := LocateDebian(lines, host.lsbRelease, properties);
  }

  /** The flavour loop of `locateLinuxProperties`. */
  method LocateLinuxProperties(host: Host, matcher: string -> RedHatMatch, properties: PropertyMap) returns (thrown: bool)
    modifies properties
    ensures Outcome(properties.entries, thrown) == LinuxProperties(host, matcher, old(properties.entries))
  {
    thrown := false;
    if IsLinux(host.osName) {
      var i := 0;
      while i < |Flavors|
        invariant 0 <= i <= |Flavors|
        invariant properties.entries == old(properties.entries) && !thrown
        invariant LocateFrom(host, matcher, i, properties.entries) == LinuxProperties(host, matcher, old(properties.entries))
      {
        var flavor := Flavors[i];
        var file := FlavorFile(host, flavor);
        if file.Lines? {
          properties.Put(FlavorKey, FlavorName(flavor));
          thrown := LocateFlavor(flavor, file.lines, host, matcher, properties);
          break;
        }
        i := i + 1;
      }
    }
  }

  method DeterminePluginVersion(file: VersionFile, properties: PropertyMap)
    modifies properties
    ensures properties.entries == PluginVersion(file, old(properties.entries))
  {
    if file.VersionLoaded? && PluginVersionKey in file.entries {
      properties.Put(PluginVersionKey, file.entries[PluginVersionKey]);
    }
  }

  /** `locateProperties(pluginRoot)`: a fresh table, the plugin version, then the Linux keys. */
  method LocateProperties(file: VersionFile, host: Host, matcher: string -> RedHatMatch) returns (result: Option<map<string, string>>)
    ensures result == LocatedProperties(file, host, matcher)
  {
    var properties := new PropertyMap();
    DeterminePluginVersion(file, properties);
    var thrown := LocateLinuxProperties(host, matcher, properties);
    if thrown {
      result := None;
    } else {
      result := Some(properties.entries);
    }
  }
}
