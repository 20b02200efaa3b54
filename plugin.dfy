/**
 * The decision logic of the Contao composer plugin: turning Contao's
 * VERSION/BUILD constants into a Composer version, injecting the installed
 * Contao core as virtual metapackages into the local repository, requiring
 * `contao/core-bundle` from the root package, refusing a second Contao
 * install, and choosing the installer at activation.
 *
 * Composer's library calls are uninterpreted: `is_numeric`,
 * `VersionParser::normalize`, `version_compare(..., '4.0', '>=')` and the
 * installer's `supports` are functions carried by a `Host` value.
 */
module ContaoPlugin {
  import opened Results

  /** The Contao constants VERSION and BUILD, as the environment reads them. */
  datatype VersionInfo = VersionInfo(version: string, build: string)

  /**
   * A detected Contao installation. `constants` is None when the getters throw
   * ConstantsNotFoundException; `swiftMailerVersion` is None when
   * getSwiftMailerVersion throws UnknownSwitfmailerException.
   */
  datatype Environment = Environment(constants: Option<VersionInfo>, swiftMailerVersion: Option<string>)

  /** The library functions the plugin calls but does not define. */
  datatype Host = Host(
    isNumeric: string -> bool,               // PHP is_numeric
    normalize: string -> Option<string>,     // VersionParser::normalize; None when it throws
    atLeastContao4: string -> bool,          // version_compare($version, '4.0', '>=')
    installerSupports: string -> bool)       // supports() of the chosen installer

  /** The exceptions that leave the plugin's operations. */
  datatype PluginError =
    | InvalidVersion(message: string)        // RuntimeException from prepareContaoVersion
    | UnparsableVersion(prettyVersion: string) // UnexpectedValueException from normalize
    | DuplicateContao                        // DuplicateContaoException from checkContaoPackage
    | NullEnvironment                        // a getter called on the null environment
    | ConstantsNotFound                      // ConstantsNotFoundException from the environment

  datatype Constraint = Equal(version: string) | AnyVersion

  /** Composer's Link: `source` relates to `target` under `constraint`. */
  datatype Link = Link(source: string, target: string, constraint: Constraint, description: string, prettyConstraint: string)

  datatype Package = Package(
    name: string,
    version: string,
    prettyVersion: string,
    packageType: string,
    distType: string,
    distUrl: string,
    distReference: string,
    distSha1Checksum: string,
    installationSource: string,
    autoload: map<string, string>,
    requireLinks: map<string, Link>,
    provideLinks: map<string, Link>)

  datatype InstallerKind = CopyInstaller | SymlinkInstaller

  /** The package names the plugin injects for a Contao 3 installation, in order. */
  const Provides: seq<string> := [
    "contao/core",
    "contao/calendar-bundle",
    "contao/comments-bundle",
    "contao/core-bundle",
    "contao/faq-bundle",
    "contao/listing-bundle",
    "contao/news-bundle",
    "contao/newsletter-bundle"
  ]

  const CoreBundle := "contao/core-bundle"
  const ComposerClient := "contao-community-alliance/composer"
  const SwiftMailer := "swiftmailer/swiftmailer"

  // ---------------------------------------------------------------------
  // prepareContaoVersion

  predicate IsDigit(c: char) {
    '0' <= c <= '9'
  }

  predicate AllDigits(s: string) {
    forall i :: 0 <= i < |s| ==> IsDigit(s[i])
  }

  /** ASCII lower case, as PCRE's `i` flag compares letters. */
  function Lower(c: char): char {
    if 'A' <= c <= 'Z' then (c as int + 32) as char else c
  }

  /** `s` begins with `tag` when case is ignored (`tag` is lower case). */
  predicate StartsWithFolded(s: string, tag: string) {
    |tag| <= |s| && forall i :: 0 <= i < |tag| ==> Lower(s[i]) == tag[i]
  }

  /** `(alpha|beta|RC)?(\d+)?` matches all of `s`, ignoring case. */
  predicate TagThenDigits(s: string) {
    || AllDigits(s)
    || (StartsWithFolded(s, "alpha") && AllDigits(s[5..]))
    || (StartsWithFolded(s, "beta") && AllDigits(s[4..]))
    || (StartsWithFolded(s, "rc") && AllDigits(s[2..]))
  }

  /**
   * `^(alpha|beta|RC)?(\d+)?$` with the `i` flag matches `build`. PCRE's `$`
   * also matches just before a final newline.
   */
  predicate IsPreReleaseBuild(build: string) {
    || TagThenDigits(build)
    || (|build| > 0 && build[|build| - 1] == '\n' && TagThenDigits(build[..|build| - 1]))
  }

  /** The longest run of digits that `s` starts with. */
  function LeadingDigits(s: string): (d: string)
    ensures d <= s && AllDigits(d)
    ensures |d| < |s| ==> !IsDigit(s[|d|])
  {
    if s != [] && IsDigit(s[0]) then [s[0]] + LeadingDigits(s[1..]) else []
  }

  /** `^(\d+)[-]` matches `build`: a digit run directly followed by a dash. */
  predicate IsPatchedBuild(build: string) {
    var d := LeadingDigits(build);
    d != [] && |d| < |build| && build[|d|] == '-'
  }

  /**
   * The Composer version of a Contao VERSION/BUILD pair: the build is kept
   * when it is numeric or a pre-release tag, cut down to its leading digits
   * when it is a patched release `<digits>-<suffix>`, and refused otherwise.
   */
  function PrepareContaoVersion(version: string, build: string, isNumeric: string -> bool): (r: Result<string, PluginError>)
    ensures r.Ok? <==> isNumeric(build) || IsPreReleaseBuild(build) || IsPatchedBuild(build)
    ensures r.Ok? ==> version + "." <= r.value && r.value[|version| + 1..] <= build
    ensures r.Ok? && |r.value| < |version| + 1 + |build| ==>
      IsPatchedBuild(build) && build[|r.value| - |version| - 1] == '-'
    ensures r.Err? ==> r.error == InvalidVersion("Invalid version: " + version + "." + build)
  {
    if isNumeric(build) then
      Ok(version + "." + build)
    else if IsPreReleaseBuild(build) then
      Ok(version + "." + build)
    else if IsPatchedBuild(build) then
      var d := LeadingDigits(build);
      assert (version + "." + d)[|version| + 1..] == d;
      Ok(version + "." + d)
    else
      Err(InvalidVersion("Invalid version: " + version + "." + build))
  }

  lemma {:induction false} LeadingDigitsOfPatched(digits: string, suffix: string)
    requires AllDigits(digits)
    ensures LeadingDigits(digits + "-" + suffix) == digits
    decreases |digits|
  {
    if digits != [] {
      assert (digits + "-" + suffix)[1..] == digits[1..] + "-" + suffix;
      LeadingDigitsOfPatched(digits[1..], suffix);
    }
  }

  /** A string with a dash in it is no pre-release build. */
  lemma DashIsNoTag(s: string, k: nat)
    requires k < |s| && s[k] == '-'
    ensures !TagThenDigits(s)
  {
    assert !IsDigit(s[k]);
    if StartsWithFolded(s, "alpha") && k >= 5 {
      assert s[5..][k - 5] == '-';
    }
    if StartsWithFolded(s, "beta") && k >= 4 {
      assert s[4..][k - 4] == '-';
    }
    if StartsWithFolded(s, "rc") && k >= 2 {
      assert s[2..][k - 2] == '-';
    }
  }

  /**
   * A patched release `<digits>-<suffix>` that is not numeric becomes
   * `<version>.<digits>`: the suffix is dropped (`99-RC1` gives `.99`).
   */
  lemma PatchedBuildDropsSuffix(version: string, digits: string, suffix: string, isNumeric: string -> bool)
    requires digits != [] && AllDigits(digits) && !isNumeric(digits + "-" + suffix)
    ensures PrepareContaoVersion(version, digits + "-" + suffix, isNumeric) == Ok(version + "." + digits)
  {
    var build := digits + "-" + suffix;
    LeadingDigitsOfPatched(digits, suffix);
    DashIsNoTag(build, |digits|);
    if |build| > 0 && build[|build| - 1] == '\n' {
      assert build[..|build| - 1][|digits|] == '-';
      DashIsNoTag(build[..|build| - 1], |digits|);
    }
    assert !IsPreReleaseBuild(build);
  }

  /** A numeric or pre-release build is appended to the version unchanged. */
  lemma StableOrPreReleaseKeepsBuild(version: string, build: string, isNumeric: string -> bool)
    requires isNumeric(build) || IsPreReleaseBuild(build)
    ensures PrepareContaoVersion(version, build, isNumeric) == Ok(version + "." + build)
  {
  }

  /** The pattern accepts the empty build, a bare number, and any letter case of the tags. */
  lemma PreReleaseAccepts()
    ensures IsPreReleaseBuild("") && IsPreReleaseBuild("7") && IsPreReleaseBuild("rc")
    ensures IsPreReleaseBuild("RC1") && IsPreReleaseBuild("Beta2")
  {
    assert "RC1"[2..] == "1";
    assert "Beta2"[4..] == "2";
  }

  /** PCRE's `$` lets one final newline through. */
  lemma PreReleaseFinalNewline()
    ensures IsPreReleaseBuild("RC1\n")
  {
    assert "RC1\n"[..3] == "RC1";
    assert "RC1"[2..] == "1";
  }

  /** An unknown tag and a dash suffix are refused. */
  lemma PreReleaseRejects()
    ensures !IsPreReleaseBuild("gamma1") && !IsPreReleaseBuild("RC1-x")
  {
    assert !IsDigit("gamma1"[0]) && Lower("gamma1"[0]) == 'g';
    assert "RC1-x"[|"RC1-x"| - 1] == 'x';
    DashIsNoTag("RC1-x", 3);
  }

  // ---------------------------------------------------------------------
  // checkContaoPackage and the installer choice in activate

  /**
   * Installing `contao/core-bundle` fails with DuplicateContaoException
   * when a Contao installation was detected around the project; every other
   * package, and every package without a detected installation, passes.
   */
  function CheckContaoPackage(environment: Option<Environment>, packageName: string): (r: Outcome<PluginError>)
    ensures r.Fail? <==> packageName == CoreBundle && environment.Some?
    ensures r.Fail? ==> r.error == DuplicateContao
  {
    if packageName == CoreBundle && environment.Some? then Fail(DuplicateContao) else Pass
  }

  /** The copy installer is chosen exactly when `preferred-install` is `dist`. */
  function ChooseInstaller(preferredInstall: Option<string>): (k: InstallerKind)
    ensures k == CopyInstaller <==> preferredInstall == Some("dist")
    ensures k == SymlinkInstaller <==> preferredInstall != Some("dist")
  {
    if preferredInstall == Some("dist") then CopyInstaller else SymlinkInstaller
  }

  // ---------------------------------------------------------------------
  // injectContaoCore, as functions on the list of local packages

  /** The values every injected package is built from. */
  datatype Injection = Injection(version: string, prettyVersion: string, contaoVersion: string, swiftMailerVersion: Option<string>)

  /**
   * The provides of an injected package: `contao/core` provides Swift Mailer
   * at exactly the installed version, when that version is known.
   */
  function SwiftMailerProvides(name: string, swiftMailerVersion: Option<string>): (r: map<string, Link>)
    ensures SwiftMailer in r <==> name == "contao/core" && swiftMailerVersion.Some?
    ensures r.Keys <= {SwiftMailer}
    ensures SwiftMailer in r ==>
      r[SwiftMailer] == Link("contao/core", SwiftMailer, Equal(swiftMailerVersion.value), "provides", swiftMailerVersion.value)
  {
    if name == "contao/core" && swiftMailerVersion.Some? then
      var swift := swiftMailerVersion.value;
      map[SwiftMailer := Link("contao/core", SwiftMailer, Equal(swift), "provides", swift)]
    else map[]
  }

  /** The virtual metapackage injected for `name`. */
  function NewPackage(name: string, inj: Injection): (p: Package)
    ensures p.name == name && p.version == inj.version && p.prettyVersion == inj.prettyVersion
    ensures p.packageType == "metapackage" && p.installationSource == "dist" && p.autoload == map[]
    ensures p.distType == "zip" && p.distReference == inj.contaoVersion && p.distSha1Checksum == inj.contaoVersion
    ensures p.distUrl == "https://github.com/contao/core/archive/" + inj.contaoVersion + ".zip"
    ensures p.requireLinks == map[ComposerClient := Link(name, ComposerClient, AnyVersion, "requires", "*")]
    ensures p.provideLinks == SwiftMailerProvides(name, inj.swiftMailerVersion)
  {
    Package(name, inj.version, inj.prettyVersion, "metapackage", "zip",
            "https://github.com/contao/core/archive/" + inj.contaoVersion + ".zip",
            inj.contaoVersion, inj.contaoVersion, "dist", map[],
            map[ComposerClient := Link(name, ComposerClient, AnyVersion, "requires", "*")],
            SwiftMailerProvides(name, inj.swiftMailerVersion))
  }

  /** A local package named `name` that ends the whole injection: a real package, or the injected one already. */
  predicate Blocks(p: Package, name: string, version: string) {
    p.name == name && (p.packageType != "metapackage" || p.version == version)
  }

  /** The packages not named `name`, in order. */
  function Without(pkgs: seq<Package>, name: string): (r: seq<Package>)
    ensures |r| <= |pkgs|
  {
    if pkgs == [] then []
    else if pkgs[0].name == name then Without(pkgs[1..], name)
    else [pkgs[0]] + Without(pkgs[1..], name)
  }

  /** The packages named `name`, in order. */
  function Named(pkgs: seq<Package>, name: string): (r: seq<Package>)
    ensures |r| <= |pkgs|
  {
    if pkgs == [] then []
    else if pkgs[0].name == name then [pkgs[0]] + Named(pkgs[1..], name)
    else Named(pkgs[1..], name)
  }

  /** Without keeps exactly the packages of other names. */
  lemma {:induction false} WithoutMembers(pkgs: seq<Package>, name: string)
    ensures forall p :: p in Without(pkgs, name) <==> p in pkgs && p.name != name
  {
    if pkgs != [] {
      WithoutMembers(pkgs[1..], name);
      assert forall p :: p in pkgs <==> p == pkgs[0] || p in pkgs[1..];
    }
  }

  /** Named keeps exactly the packages of that name. */
  lemma {:induction false} NamedMembers(pkgs: seq<Package>, name: string)
    ensures forall p :: p in Named(pkgs, name) <==> p in pkgs && p.name == name
  {
    if pkgs != [] {
      NamedMembers(pkgs[1..], name);
      assert forall p :: p in pkgs <==> p == pkgs[0] || p in pkgs[1..];
    }
  }

  /** How a pass over the local packages for one name ends, and the packages it leaves. */
  datatype Scan = Scan(stopped: bool, rest: seq<Package>)

  function Prefixed(kept: seq<Package>, s: Scan): Scan {
    Scan(s.stopped, kept + s.rest)
  }

  /**
   * One pass of the inner loop: stale metapackages named `name` are dropped
   * until a blocking package is met, which stops the pass and keeps the rest.
   */
  function ScanName(pkgs: seq<Package>, name: string, version: string): Scan {
    if pkgs == [] then Scan(false, [])
    else if Blocks(pkgs[0], name, version) then Scan(true, pkgs)
    else if pkgs[0].name == name then ScanName(pkgs[1..], name, version)
    else Prefixed([pkgs[0]], ScanName(pkgs[1..], name, version))
  }

  /** The local packages after injecting `names` in order, stopping at the first blocked name. */
  function Inject(pkgs: seq<Package>, names: seq<string>, inj: Injection): seq<Package>
    decreases |names|
  {
    if names == [] then pkgs
    else
      var s := ScanName(pkgs, names[0], inj.version);
      if s.stopped then s.rest
      else Inject(s.rest + [NewPackage(names[0], inj)], names[1..], inj)
  }

  /** A pass completes exactly when every package of that name is a metapackage at another version. */
  lemma {:induction false} ScanCompletesIff(pkgs: seq<Package>, name: string, version: string)
    ensures !ScanName(pkgs, name, version).stopped <==>
      forall p :: p in pkgs && p.name == name ==> p.packageType == "metapackage" && p.version != version
  {
    if pkgs != [] {
      ScanCompletesIff(pkgs[1..], name, version);
      assert forall p :: p in pkgs <==> p == pkgs[0] || p in pkgs[1..];
    }
  }

  /**
   * A pass only ever removes packages of its own name, whether it stops or
   * not; a completed pass removes them all.
   */
  lemma {:induction false} ScanRemovesOnlyItsName(pkgs: seq<Package>, name: string, version: string)
    ensures Without(ScanName(pkgs, name, version).rest, name) == Without(pkgs, name)
    ensures !ScanName(pkgs, name, version).stopped ==> ScanName(pkgs, name, version).rest == Without(pkgs, name)
  {
    if pkgs != [] && !Blocks(pkgs[0], name, version) {
      ScanRemovesOnlyItsName(pkgs[1..], name, version);
      if pkgs[0].name != name {
        var t := ScanName(pkgs[1..], name, version).rest;
        assert ([pkgs[0]] + t)[1..] == t;
      }
    }
  }

  /** Packages that do not carry the name are passed over unchanged. */
  lemma {:induction false} ScanSkipsOthers(a: seq<Package>, b: seq<Package>, name: string, version: string)
    requires forall p :: p in a ==> p.name != name
    ensures ScanName(a + b, name, version) == Prefixed(a, ScanName(b, name, version))
  {
    if a == [] {
      assert a + b == b && a + ScanName(b, name, version).rest == ScanName(b, name, version).rest;
    } else {
      assert (a + b)[0] == a[0] && (a + b)[1..] == a[1..] + b;
      assert a[0] in a;
      ScanSkipsOthers(a[1..], b, name, version);
      var t := ScanName(b, name, version);
      calc {
        ScanName(a + b, name, version);
        Prefixed([a[0]], ScanName(a[1..] + b, name, version));
        Prefixed([a[0]], Prefixed(a[1..], t));
        { assert [a[0]] + (a[1..] + t.rest) == a + t.rest; }
        Prefixed(a, t);
      }
    }
  }

  lemma {:induction false} WithoutAppend(a: seq<Package>, b: seq<Package>, name: string)
    ensures Without(a + b, name) == Without(a, name) + Without(b, name)
  {
    if a == [] {
      assert a + b == b;
    } else {
      assert (a + b)[0] == a[0] && (a + b)[1..] == a[1..] + b;
      WithoutAppend(a[1..], b, name);
    }
  }

  lemma {:induction false} NamedAppend(a: seq<Package>, b: seq<Package>, name: string)
    ensures Named(a + b, name) == Named(a, name) + Named(b, name)
  {
    if a == [] {
      assert a + b == b;
    } else {
      assert (a + b)[0] == a[0] && (a + b)[1..] == a[1..] + b;
      NamedAppend(a[1..], b, name);
    }
  }

  lemma {:induction false} NamedOfWithout(pkgs: seq<Package>, name: string, other: string)
    ensures Named(Without(pkgs, name), other) == if other == name then [] else Named(pkgs, other)
  {
    if pkgs != [] {
      NamedOfWithout(pkgs[1..], name, other);
      if pkgs[0].name != name {
        assert ([pkgs[0]] + Without(pkgs[1..], name))[1..] == Without(pkgs[1..], name);
      }
    }
  }

  /**
   * A name processed to completion ends with exactly one package of that
   * name, the fresh metapackage, and packages of every other name as they were.
   */
  lemma CompletedNameHasOnePackage(pkgs: seq<Package>, name: string, inj: Injection)
    requires !ScanName(pkgs, name, inj.version).stopped
    ensures var after := ScanName(pkgs, name, inj.version).rest + [NewPackage(name, inj)];
      Named(after, name) == [NewPackage(name, inj)] &&
      Without(after, name) == Without(pkgs, name)
  {
    var rest := ScanName(pkgs, name, inj.version).rest;
    ScanRemovesOnlyItsName(pkgs, name, inj.version);
    NamedAppend(rest, [NewPackage(name, inj)], name);
    NamedOfWithout(pkgs, name, name);
    WithoutAppend(rest, [NewPackage(name, inj)], name);
    assert Without([NewPackage(name, inj)], name) == [];
    assert Without(pkgs, name) == Without(Without(pkgs, name), name) by {
      NamedOfWithout(pkgs, name, name);
      WithoutIdempotent(pkgs, name);
    }
  }

  lemma {:induction false} WithoutIdempotent(pkgs: seq<Package>, name: string)
    ensures Without(Without(pkgs, name), name) == Without(pkgs, name)
  {
    if pkgs != [] {
      WithoutIdempotent(pkgs[1..], name);
      if pkgs[0].name != name {
        assert ([pkgs[0]] + Without(pkgs[1..], name))[1..] == Without(pkgs[1..], name);
      }
    }
  }

  /** Packages whose name is not injected keep their order and contents. */
  lemma {:induction false} InjectKeepsOtherNames(pkgs: seq<Package>, names: seq<string>, inj: Injection, other: string)
    requires other !in names
    ensures Named(Inject(pkgs, names, inj), other) == Named(pkgs, other)
    decreases |names|
  {
    if names != [] {
      var s := ScanName(pkgs, names[0], inj.version);
      ScanRemovesOnlyItsName(pkgs, names[0], inj.version);
      NamedOfWithout(s.rest, names[0], other);
      NamedOfWithout(pkgs, names[0], other);
      if !s.stopped {
        NamedAppend(s.rest, [NewPackage(names[0], inj)], other);
        assert Named([NewPackage(names[0], inj)], other) == [];
        InjectKeepsOtherNames(s.rest + [NewPackage(names[0], inj)], names[1..], inj, other);
      }
    }
  }

  /**
   * When the pass for the first name stops, injection ends there: packages of
   * every other name, later provided names included, are as they were.
   */
  lemma StopLeavesOtherNames(pkgs: seq<Package>, names: seq<string>, inj: Injection)
    requires names != [] && ScanName(pkgs, names[0], inj.version).stopped
    ensures Without(Inject(pkgs, names, inj), names[0]) == Without(pkgs, names[0])
    ensures forall m :: m != names[0] ==> Named(Inject(pkgs, names, inj), m) == Named(pkgs, m)
  {
    ScanRemovesOnlyItsName(pkgs, names[0], inj.version);
    forall m | m != names[0] ensures Named(Inject(pkgs, names, inj), m) == Named(pkgs, m) {
      NamedOfWithout(Inject(pkgs, names, inj), names[0], m);
      NamedOfWithout(pkgs, names[0], m);
    }
  }

  /** The packages injected for `names`, in order. */
  function NewPackages(names: seq<string>, inj: Injection): (r: seq<Package>)
    ensures |r| == |names|
  {
    if names == [] then [] else [NewPackage(names[0], inj)] + NewPackages(names[1..], inj)
  }

  /** No name occurs twice. */
  predicate Distinct(names: seq<string>) {
    forall i, j :: 0 <= i < j < |names| ==> names[i] != names[j]
  }

  /** No local package carries any of the names. */
  predicate NoneNamed(pkgs: seq<Package>, names: seq<string>) {
    forall p :: p in pkgs ==> p.name !in names
  }

  /** After injecting the first name, the repository still holds none of the remaining names. */
  lemma NextNoneNamed(pkgs: seq<Package>, names: seq<string>, inj: Injection)
    requires names != [] && NoneNamed(pkgs, names)
    requires Distinct(names)
    ensures NoneNamed(pkgs + [NewPackage(names[0], inj)], names[1..])
    ensures Distinct(names[1..])
  {
    assert forall m :: m in names[1..] ==> m in names;
    assert names[0] !in names[1..] by {
      assert forall j :: 0 <= j < |names[1..]| ==> names[1..][j] == names[j + 1];
    }
  }

  /** A name the repository does not hold is injected by appending its package. */
  lemma FreshStep(pkgs: seq<Package>, names: seq<string>, inj: Injection)
    requires names != [] && NoneNamed(pkgs, names)
    ensures Inject(pkgs, names, inj) == Inject(pkgs + [NewPackage(names[0], inj)], names[1..], inj)
  {
    assert names[0] in names;
    ScanSkipsOthers(pkgs, [], names[0], inj.version);
    assert pkgs + [] == pkgs;
  }

  /** Into a repository that holds none of the names, every name is injected, once, in order. */
  lemma {:induction false} FreshInjection(pkgs: seq<Package>, names: seq<string>, inj: Injection)
    requires NoneNamed(pkgs, names) && Distinct(names)
    ensures Inject(pkgs, names, inj) == pkgs + NewPackages(names, inj)
    decreases |names|
  {
    if names != [] {
      var first := NewPackage(names[0], inj);
      FreshStep(pkgs, names, inj);
      NextNoneNamed(pkgs, names, inj);
      FreshInjection(pkgs + [first], names[1..], inj);
      calc {
        Inject(pkgs, names, inj);
        Inject(pkgs + [first], names[1..], inj);
        (pkgs + [first]) + NewPackages(names[1..], inj);
        pkgs + ([first] + NewPackages(names[1..], inj));
        pkgs + NewPackages(names, inj);
      }
    }
  }

  /**
   * Injecting again into the result of a fresh injection changes nothing:
   * the first name already holds the metapackage at the target version.
   */
  lemma ReinjectionIsNoop(pkgs: seq<Package>, names: seq<string>, inj: Injection)
    requires names != [] && NoneNamed(pkgs, names) && Distinct(names)
    ensures Inject(Inject(pkgs, names, inj), names, inj) == Inject(pkgs, names, inj)
  {
    FreshInjection(pkgs, names, inj);
    var news := NewPackages(names, inj);
    assert news == [NewPackage(names[0], inj)] + NewPackages(names[1..], inj);
    ScanSkipsOthers(pkgs, news, names[0], inj.version);
    assert Blocks(news[0], names[0], inj.version);
  }

  /** The prepared version of `info` is valid and normalises. */
  predicate Normalisable(info: VersionInfo, host: Host) {
    var pretty := PrepareContaoVersion(info.version, info.build, host.isNumeric);
    pretty.Ok? && host.normalize(pretty.value).Some?
  }

  /** Injection leaves every name outside `names` as it was. */
  lemma InjectKeepsAllOtherNames(pkgs: seq<Package>, names: seq<string>, inj: Injection)
    ensures forall m :: m !in names ==> Named(Inject(pkgs, names, inj), m) == Named(pkgs, m)
  {
    forall m | m !in names ensures Named(Inject(pkgs, names, inj), m) == Named(pkgs, m) {
      InjectKeepsOtherNames(pkgs, names, inj, m);
    }
  }

  /**
   * The outcome of injectContaoCore on the given local packages: it fails
   * without an environment or its constants, and on a build that cannot be
   * made a version unless the installation is Contao 4; packages of names it
   * does not provide are never touched.
   */
  function CoreInjection(environment: Option<Environment>, host: Host, pkgs: seq<Package>): (r: Result<seq<Package>, PluginError>)
    ensures environment.None? ==> r == Err(NullEnvironment)
    ensures environment.Some? && environment.value.constants.None? ==> r == Err(ConstantsNotFound)
    ensures r.Ok? <==>
      && environment.Some? && environment.value.constants.Some?
      && (host.atLeastContao4(environment.value.constants.value.version) ||
          Normalisable(environment.value.constants.value, host))
    ensures r.Ok? ==> forall m :: m !in Provides ==> Named(r.value, m) == Named(pkgs, m)
  {
    if environment.None? then Err(NullEnvironment)
    else if environment.value.constants.None? then Err(ConstantsNotFound)
    else
      var info := environment.value.constants.value;
      if host.atLeastContao4(info.version) then Ok(pkgs)
      else
        var pretty := PrepareContaoVersion(info.version, info.build, host.isNumeric);
        if pretty.Err? then Err(pretty.error)
        else if host.normalize(pretty.value).None? then Err(UnparsableVersion(pretty.value))
        else
          var inj := Injection(host.normalize(pretty.value).value, pretty.value,
                               info.version + "." + info.build, environment.value.swiftMailerVersion);
          InjectKeepsAllOtherNames(pkgs, Provides, inj);
          Ok(Inject(pkgs, Provides, inj))
  }

  /** A Contao 4 installation gets nothing injected. */
  lemma ContaoFourUntouched(environment: Option<Environment>, host: Host, pkgs: seq<Package>)
    requires environment.Some? && environment.value.constants.Some?
    requires host.atLeastContao4(environment.value.constants.value.version)
    ensures CoreInjection(environment, host, pkgs) == Ok(pkgs)
  {
  }

  /** The root package's requires after injectRequires. */
  function RequiresInjection(environment: Option<Environment>, host: Host, requireLinks: map<string, Link>): (r: Result<map<string, Link>, PluginError>)
    ensures CoreBundle in requireLinks ==> r == Ok(requireLinks)
    ensures r.Ok? ==> CoreBundle in r.value && r.value.Keys == requireLinks.Keys + {CoreBundle}
    ensures r.Ok? ==> forall k :: k in requireLinks ==> r.value[k] == requireLinks[k]
    ensures CoreBundle !in requireLinks && environment.None? ==> r == Err(NullEnvironment)
    ensures CoreBundle !in requireLinks && environment.Some? && environment.value.constants.None? ==>
      r == Err(ConstantsNotFound)
    ensures CoreBundle !in requireLinks && environment.Some? && environment.value.constants.Some? ==>
      var info := environment.value.constants.value;
      var pretty := PrepareContaoVersion(info.version, info.build, host.isNumeric);
      && (pretty.Err? ==> r == Err(pretty.error))
      && (pretty.Ok? && host.normalize(pretty.value).None? ==> r == Err(UnparsableVersion(pretty.value)))
      && (pretty.Ok? && host.normalize(pretty.value).Some? ==>
            r.Ok? && r.value[CoreBundle] ==
              Link(CoreBundle, CoreBundle, Equal(host.normalize(pretty.value).value), "requires", pretty.value))
  {
    if CoreBundle in requireLinks then Ok(requireLinks)
    else if environment.None? then Err(NullEnvironment)
    else if environment.value.constants.None? then Err(ConstantsNotFound)
    else
      var info := environment.value.constants.value;
      var pretty := PrepareContaoVersion(info.version, info.build, host.isNumeric);
      if pretty.Err? then Err(pretty.error)
      else if host.normalize(pretty.value).None? then Err(UnparsableVersion(pretty.value))
      else
        var version := host.normalize(pretty.value).value;
        Ok(requireLinks[CoreBundle := Link(CoreBundle, CoreBundle, Equal(version), "requires", pretty.value)])
  }

  /** Only an absent `contao/core-bundle` requirement can make injectRequires fail. */
  lemma RequiresPresentNeverFails(environment: Option<Environment>, host: Host, requireLinks: map<string, Link>)
    requires CoreBundle in requireLinks
    ensures RequiresInjection(environment, host, requireLinks) == Ok(requireLinks)
  {
  }

  /** Whether activate injects at all: the root package is not one the installer handles and is not contao/contao. */
  predicate ShouldInject(host: Host, rootType: string, rootPrettyName: string) {
    !host.installerSupports(rootType) && rootPrettyName != "contao/contao"
  }

  /**
   * Nothing is injected when the project itself is Contao (`contao/contao`),
   * or when its root package is of a type the registered installer handles.
   */
  lemma InjectionSkipped(host: Host, rootType: string, rootPrettyName: string)
    ensures rootPrettyName == "contao/contao" ==> !ShouldInject(host, rootType, rootPrettyName)
    ensures host.installerSupports(rootType) ==> !ShouldInject(host, rootType, rootPrettyName)
    ensures !host.installerSupports(rootType) && rootPrettyName != "contao/contao" ==> ShouldInject(host, rootType, rootPrettyName)
  {
  }

  // ---------------------------------------------------------------------
  // The objects activate works on

  /** Composer's local repository of installed packages. */
  class LocalRepository {
    var packages: seq<Package>

    constructor (packages: seq<Package>)
      ensures this.packages == packages
    {
      this.packages := packages;
    }

    /** Appends a package. */
    method AddPackage(p: Package)
      modifies this
      ensures packages == old(packages) + [p]
    {
      packages := packages + [p];
    }

    /** Removes the first package with the same name and version. */
    method RemovePackage(p: Package)
      modifies this
      ensures packages == RemoveFirst(old(packages), p)
    {
      var i := 0;
      while i < |packages|
        invariant 0 <= i <= |packages|
        invariant forall j :: 0 <= j < i ==> !SameUnique(packages[j], p)
      {
        if SameUnique(packages[i], p) {
          RemoveFirstAt(packages, p, i);
          packages := packages[..i] + packages[i + 1..];
          return;
        }
        i := i + 1;
      }
      RemoveFirstAbsent(packages, p);
    }
  }

  /** Composer identifies a package in a repository by name and version. */
  predicate SameUnique(a: Package, b: Package) {
    a.name == b.name && a.version == b.version
  }

  function RemoveFirst(pkgs: seq<Package>, p: Package): seq<Package> {
    if pkgs == [] then []
    else if SameUnique(pkgs[0], p) then pkgs[1..]
    else [pkgs[0]] + RemoveFirst(pkgs[1..], p)
  }

  lemma {:induction false} RemoveFirstAt(pkgs: seq<Package>, p: Package, i: nat)
    requires i < |pkgs| && SameUnique(pkgs[i], p)
    requires forall j :: 0 <= j < i ==> !SameUnique(pkgs[j], p)
    ensures RemoveFirst(pkgs, p) == pkgs[..i] + pkgs[i + 1..]
  {
    if i > 0 {
      RemoveFirstAt(pkgs[1..], p, i - 1);
      assert pkgs[1..][..i - 1] == pkgs[1..i];
      assert pkgs[1..][i..] == pkgs[i + 1..];
      assert [pkgs[0]] + pkgs[1..i] == pkgs[..i];
    }
  }

  lemma {:induction false} RemoveFirstAbsent(pkgs: seq<Package>, p: Package)
    requires forall j :: 0 <= j < |pkgs| ==> !SameUnique(pkgs[j], p)
    ensures RemoveFirst(pkgs, p) == pkgs
  {
    if pkgs != [] {
      RemoveFirstAbsent(pkgs[1..], p);
    }
  }

  /** Removing a package of a name that does not occur before it removes that very package. */
  lemma RemoveFirstAfterOthers(kept: seq<Package>, p: Package, tail: seq<Package>)
    requires forall q :: q in kept ==> q.name != p.name
    ensures RemoveFirst(kept + [p] + tail, p) == kept + tail
  {
    var s := kept + [p] + tail;
    assert s[|kept|] == p;
    RemoveFirstAt(s, p, |kept|);
    assert s[..|kept|] == kept && s[|kept| + 1..] == tail;
  }

  /** No package of `s` blocks the injection of `name`. */
  predicate NoBlocker(s: seq<Package>, name: string, version: string) {
    forall k :: 0 <= k < |s| ==> !Blocks(s[k], name, version)
  }

  /** Scanning past packages that do not block keeps the others and drops those of the name. */
  lemma {:induction false} ScanPastClear(a: seq<Package>, b: seq<Package>, name: string, version: string)
    requires NoBlocker(a, name, version)
    ensures ScanName(a + b, name, version) == Prefixed(Without(a, name), ScanName(b, name, version))
  {
    var t := ScanName(b, name, version);
    if a == [] {
      assert a + b == b && [] + t.rest == t.rest;
    } else {
      assert (a + b)[0] == a[0] && (a + b)[1..] == a[1..] + b;
      assert !Blocks(a[0], name, version);
      ScanPastClear(a[1..], b, name, version);
      if a[0].name != name {
        assert [a[0]] + (Without(a[1..], name) + t.rest) == ([a[0]] + Without(a[1..], name)) + t.rest;
      }
    }
  }

  /**
   * The inner loop's invariant over a snapshot of the local packages: the
   * first `j` were scanned and none blocked, and the current list is the
   * scanned ones without stale packages of `name`, then the unscanned rest.
   */
  predicate Scanning(snapshot: seq<Package>, current: seq<Package>, name: string, version: string, j: nat) {
    && j <= |snapshot|
    && current == Without(snapshot[..j], name) + snapshot[j..]
    && forall k :: 0 <= k < j ==> !Blocks(snapshot[k], name, version)
  }

  lemma ScanningStart(snapshot: seq<Package>, name: string, version: string)
    ensures Scanning(snapshot, snapshot, name, version, 0)
  {
    assert snapshot[..0] == [] && snapshot[0..] == snapshot;
  }

  /** A blocking package ends the pass with the current list as it is. */
  lemma ScanningStops(snapshot: seq<Package>, current: seq<Package>, name: string, version: string, j: nat)
    requires Scanning(snapshot, current, name, version, j) && j < |snapshot| && Blocks(snapshot[j], name, version)
    ensures ScanName(snapshot, name, version) == Scan(true, current)
  {
    assert snapshot == snapshot[..j] + snapshot[j..];
    assert NoBlocker(snapshot[..j], name, version);
    ScanPastClear(snapshot[..j], snapshot[j..], name, version);
    assert snapshot[j..][0] == snapshot[j];
  }

  /** A pass that reaches the end completes, leaving the current list. */
  lemma ScanningEnds(snapshot: seq<Package>, current: seq<Package>, name: string, version: string)
    requires Scanning(snapshot, current, name, version, |snapshot|)
    ensures ScanName(snapshot, name, version) == Scan(false, current)
  {
    assert snapshot[..|snapshot|] == snapshot && snapshot[|snapshot|..] == [];
    assert snapshot + [] == snapshot;
    assert NoBlocker(snapshot, name, version);
    ScanPastClear(snapshot, [], name, version);
    assert current == Without(snapshot, name) + [];
  }

  /** A stale metapackage of the name is removed from the current list. */
  lemma ScanningDrop(snapshot: seq<Package>, current: seq<Package>, name: string, version: string, j: nat)
    requires Scanning(snapshot, current, name, version, j) && j < |snapshot|
    requires !Blocks(snapshot[j], name, version) && snapshot[j].name == name
    ensures Scanning(snapshot, RemoveFirst(current, snapshot[j]), name, version, j + 1)
  {
    var p := snapshot[j];
    var kept := Without(snapshot[..j], name);
    var tail := snapshot[j + 1..];
    assert snapshot[j..] == [p] + tail;
    assert current == kept + [p] + tail;
    WithoutMembers(snapshot[..j], name);
    RemoveFirstAfterOthers(kept, p, tail);
    assert snapshot[..j + 1] == snapshot[..j] + [p];
    WithoutAppend(snapshot[..j], [p], name);
    assert [p][1..] == [];
    assert Without(snapshot[..j + 1], name) == kept + [];
  }

  /** A package of another name stays where it is. */
  lemma ScanningKeep(snapshot: seq<Package>, current: seq<Package>, name: string, version: string, j: nat)
    requires Scanning(snapshot, current, name, version, j) && j < |snapshot| && snapshot[j].name != name
    ensures Scanning(snapshot, current, name, version, j + 1)
  {
    var p := snapshot[j];
    var kept := Without(snapshot[..j], name);
    var tail := snapshot[j + 1..];
    assert snapshot[j..] == [p] + tail;
    assert snapshot[..j + 1] == snapshot[..j] + [p];
    WithoutAppend(snapshot[..j], [p], name);
    assert [p][1..] == [];
    assert Without(snapshot[..j + 1], name) == kept + [p];
    assert kept + ([p] + tail) == (kept + [p]) + tail;
  }

  /** A package that does not block is dropped when stale and kept otherwise. */
  lemma ScanningStep(snapshot: seq<Package>, current: seq<Package>, name: string, version: string, j: nat)
    requires Scanning(snapshot, current, name, version, j) && j < |snapshot| && !Blocks(snapshot[j], name, version)
    ensures Scanning(snapshot, if snapshot[j].name == name then RemoveFirst(current, snapshot[j]) else current,
                     name, version, j + 1)
  {
    if snapshot[j].name == name {
      ScanningDrop(snapshot, current, name, version, j);
    } else {
      ScanningKeep(snapshot, current, name, version, j);
    }
  }

  /** The root package of the project; its requires are updated in place. */
  class RootPackage {
    const prettyName: string
    const packageType: string
    var requireLinks: map<string, Link>

    constructor (prettyName: string, packageType: string, requireLinks: map<string, Link>)
      ensures this.prettyName == prettyName && this.packageType == packageType && this.requireLinks == requireLinks
    {
      this.prettyName := prettyName;
      this.packageType := packageType;
      this.requireLinks := requireLinks;
    }
  }

  class Plugin {
    const host: Host
    const repository: LocalRepository
    const root: RootPackage
    /** The detected Contao installation; None when none was found. */
    var environment: Option<Environment>
    /** The installer registered at activation. */
    var installer: Option<InstallerKind>

    constructor (host: Host, repository: LocalRepository, root: RootPackage)
      ensures this.host == host && this.repository == repository && this.root == root
      ensures environment.None? && installer.None?
    {
      this.host := host;
      this.repository := repository;
      this.root := root;
      environment := None;
      installer := None;
    }

    /**
     * Injects the installed Contao 3 core as metapackages, name by name, and
     * stops at the first name that is installed for real or already injected.
     */
    method InjectContaoCore() returns (r: Outcome<PluginError>)
      modifies repository
      ensures var res := CoreInjection(environment, host, old(repository.packages));
        && (res.Ok? ==> r == Pass && repository.packages == res.value)
        && (res.Err? ==> r == Fail(res.error) && repository.packages == old(repository.packages))
    {
      if environment.None? {
        return Fail(NullEnvironment);
      }
      if environment.value.constants.None? {
        return Fail(ConstantsNotFound);
      }
      var info := environment.value.constants.value;
      if host.atLeastContao4(info.version) {
        return Pass;
      }
      var pretty := PrepareContaoVersion(info.version, info.build, host.isNumeric);
      if pretty.Err? {
        return Fail(pretty.error);
      }
      var normalized := host.normalize(pretty.value);
      if normalized.None? {
        return Fail(UnparsableVersion(pretty.value));
      }
      var inj := Injection(normalized.value, pretty.value, info.version + "." + info.build,
                           environment.value.swiftMailerVersion);
      ghost var goal := Inject(repository.packages, Provides, inj);
      var i := 0;
      while i < |Provides|
        invariant 0 <= i <= |Provides|
        invariant Inject(repository.packages, Provides[i..], inj) == goal
      {
        var name := Provides[i];
        var stopped := ScanLocalPackages(name, inj.version);
        if stopped {
          return Pass;
        }
        assert Provides[i..][0] == name && Provides[i..][1..] == Provides[i + 1..];
        repository.AddPackage(NewPackage(name, inj));
        i := i + 1;
      }
      return Pass;
    }

    /**
     * The inner loop of injectContaoCore for one provided name: walks a
     * snapshot of the local packages, removes stale metapackages of that name,
     * and reports whether a blocking package stopped the injection.
     */
    method ScanLocalPackages(name: string, version: string) returns (stopped: bool)
      modifies repository
      ensures stopped == ScanName(old(repository.packages), name, version).stopped
      ensures repository.packages == ScanName(old(repository.packages), name, version).rest
    {
      var snapshot := repository.packages;
      ScanningStart(snapshot, name, version);
      var j: nat := 0;
      while j < |snapshot|
        invariant Scanning(snapshot, repository.packages, name, version, j)
      {
        var p := snapshot[j];
        if Blocks(p, name, version) {
          // a real package of that name, or the injected one already
          ScanningStops(snapshot, repository.packages, name, version, j);
          return true;
        }
        if p.name == name {
          ScanningDrop(snapshot, repository.packages, name, version, j);
          repository.RemovePackage(p);
        } else {
          ScanningKeep(snapshot, repository.packages, name, version, j);
        }
        j := j + 1;
      }
      ScanningEnds(snapshot, repository.packages, name, version);
      return false;
    }

    /** Adds the `contao/core-bundle ==` requirement to the root package unless it requires that package already. */
    method InjectRequires() returns (r: Outcome<PluginError>)
      modifies root
      ensures var res := RequiresInjection(environment, host, old(root.requireLinks));
        && (res.Ok? ==> r == Pass && root.requireLinks == res.value)
        && (res.Err? ==> r == Fail(res.error) && root.requireLinks == old(root.requireLinks))
    {
      if CoreBundle in root.requireLinks {
        return Pass;
      }
      if environment.None? {
        return Fail(NullEnvironment);
      }
      if environment.value.constants.None? {
        return Fail(ConstantsNotFound);
      }
      var info := environment.value.constants.value;
      var pretty := PrepareContaoVersion(info.version, info.build, host.isNumeric);
      if pretty.Err? {
        return Fail(pretty.error);
      }
      var normalized := host.normalize(pretty.value);
      if normalized.None? {
        return Fail(UnparsableVersion(pretty.value));
      }
      var link := Link(CoreBundle, CoreBundle, Equal(normalized.value), "requires", pretty.value);
      root.requireLinks := root.requireLinks[CoreBundle := link];
      return Pass;
    }

    /**
     * Stores the detected environment, registers the copy or symlink installer
     * and, unless the root package is itself Contao, injects the core packages
     * and the core-bundle requirement. A missing constants file silently ends
     * the injection; every other failure leaves activate.
     */
    method Activate(detected: Option<Environment>, preferredInstall: Option<string>) returns (r: Outcome<PluginError>)
      modifies this, repository, root
      ensures environment == detected && installer == Some(ChooseInstaller(preferredInstall))
      ensures !ShouldInject(host, root.packageType, root.prettyName) ==>
        r == Pass && repository.packages == old(repository.packages) && root.requireLinks == old(root.requireLinks)
      ensures ShouldInject(host, root.packageType, root.prettyName) ==>
        var core := CoreInjection(detected, host, old(repository.packages));
        var req := RequiresInjection(detected, host, old(root.requireLinks));
        && (core.Err? ==> repository.packages == old(repository.packages) && root.requireLinks == old(root.requireLinks) &&
                          r == (if core.error == ConstantsNotFound then Pass else Fail(core.error)))
        && (core.Ok? ==> repository.packages == core.value)
        && (core.Ok? && req.Ok? ==> root.requireLinks == req.value && r == Pass)
        && (core.Ok? && req.Err? ==> root.requireLinks == old(root.requireLinks) &&
                                     r == (if req.error == ConstantsNotFound then Pass else Fail(req.error)))
    {
      environment := detected;
      installer := Some(ChooseInstaller(preferredInstall));
      if ShouldInject(host, root.packageType, root.prettyName) {
        var core := InjectContaoCore();
        if core.Fail? {
          if core.error == ConstantsNotFound {
            return Pass;
          }
          return core;
        }
        var req := InjectRequires();
        if req.Fail? && req.error == ConstantsNotFound {
          return Pass;
        }
        return req;
      }
      return Pass;
    }
  }
}
