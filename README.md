# Contao composer plugin — a verified model of its core

The Contao composer plugin lets Composer install Contao 3 extensions. This
project models the plugin's decision logic and proves properties of it:

- **Version preparation.** The plugin turns the installed Contao's `VERSION`
  and `BUILD` constants into a Composer version. A numeric or pre-release
  build is kept as it is. A patched build `<digits>-<suffix>` is cut to its
  digits. Any other build is refused with "Invalid version: …".
- **Core injection.** For a Contao 3 installation, the plugin injects the
  eight core package names into Composer's local repository as virtual
  metapackages. It walks the names in order. A stale metapackage of a name is
  removed. A real package of that name, or the already injected metapackage,
  stops the whole injection.
- **Root requirement.** The root package is made to require
  `contao/core-bundle` at the installed version, unless it already requires
  it.
- **Duplicate guard.** Installing `contao/core-bundle` is refused while a
  Contao installation is detected around the project.
- **Installer choice.** Activation registers the copy installer when
  `preferred-install` is `dist` and the symlink installer otherwise.
- **Runonce manager.** Runonce migration scripts are queued and written into
  `system/runonce.php`. A script still pending is moved to
  `system/runonce_1.php`, and the new script chains to it.
- **Legacy module installer.** A `legacy-contao-module` package has its
  `TL_ROOT` files symlinked one by one below the Contao root. Uninstalling
  removes exactly those links and the directories left empty.
- **Sources specification.** A package's sources are the union of its
  `extra.contao.sources` and `extra.contao.symlinks` maps.

Files:

- `results.dfy` (module `Results`): the `Option`, `Result` and `Outcome` wrappers. An `Outcome` is `Pass` or `Fail(error)`, standing for a PHP method that returns nothing or throws.
- `plugin.dfy` (module `ContaoPlugin`):
  - version preparation, the duplicate guard and the installer choice, as functions;
  - core injection, specified by the functions `ScanName`/`Inject`/`CoreInjection`;
  - the root requirement, specified by `RequiresInjection`;
  - the classes `LocalRepository`, `RootPackage` and `Plugin`, whose methods change their state in place and are proved against those functions.
- `runonce.dfy` (module `Runonce`): the class `RunonceManager` with its queue and the files it writes, the rendering of a runonce script, and the behaviour the runonce manager's unit tests exercise.
- `legacy_installer.dfy` (module `LegacyInstaller`): the filesystem as a map from paths to nodes that forms a tree, and the class `LegacyContaoModuleInstaller`. Its install and uninstall loops are proved against the predicates `Installed` and `Uninstalled`.
- `sources_spec.dfy` (module `SourcesSpec`): the union of `sources` and `symlinks`.

## Model

| member | source | states |
|---|---|---|
| ContaoPlugin.PrepareContaoVersion | src/ContaoCommunityAlliance/Composer/Plugin/Plugin.php:266-284 | The version is accepted iff the build is numeric, is an optional alpha, beta or RC tag (any case) followed by optional digits (a final newline allowed), or starts with digits and a dash. An accepted result is `version.` followed by a prefix of the build. When it is shorter than the whole build, the build was a patched one and the cut falls on the dash. A refusal carries the message "Invalid version: version.build". |
| ContaoPlugin.LeadingDigits | src/ContaoCommunityAlliance/Composer/Plugin/Plugin.php:279 | The captured `(\d+)` is a prefix of the build made only of digits, and it is maximal: the next character is not a digit. |
| ContaoPlugin.StableOrPreReleaseKeepsBuild | src/ContaoCommunityAlliance/Composer/Plugin/Plugin.php:269-276 | A numeric or pre-release build yields exactly `version.build`. |
| ContaoPlugin.PatchedBuildDropsSuffix | src/ContaoCommunityAlliance/Composer/Plugin/Plugin.php:279-281 | A non-numeric build `<digits>-<suffix>` yields exactly `version.<digits>`; the suffix is dropped. |
| ContaoPlugin.PreReleaseAccepts | src/ContaoCommunityAlliance/Composer/Plugin/Plugin.php:274-276 | The pre-release pattern accepts the empty build, a bare number, and the tags in any letter case (`rc`, `RC1`, `Beta2`). |
| ContaoPlugin.PreReleaseFinalNewline | src/ContaoCommunityAlliance/Composer/Plugin/Plugin.php:274 | The pattern's `$` lets a build with one trailing newline (`RC1\n`) through. |
| ContaoPlugin.PreReleaseRejects | src/ContaoCommunityAlliance/Composer/Plugin/Plugin.php:274-283 | An unknown tag (`gamma1`) and a tag with a dash suffix (`RC1-x`) do not match the pre-release pattern. |
| ContaoPlugin.CheckContaoPackage | src/ContaoCommunityAlliance/Composer/Plugin/Plugin.php:205-220 | Installation fails iff the package is `contao/core-bundle` and a Contao installation was detected; the failure is the duplicate-Contao error. |
| ContaoPlugin.ChooseInstaller | src/ContaoCommunityAlliance/Composer/Plugin/Plugin.php:104-109 | The copy installer is chosen iff `preferred-install` is `dist`, and the symlink installer iff it is not. |
| ContaoPlugin.NewPackage | src/ContaoCommunityAlliance/Composer/Plugin/Plugin.php:323-346 | An injected package is a metapackage with the given name, target version and pretty version, installed from the `zip` dist at `https://github.com/contao/core/archive/<Contao version>.zip` with the Contao version as reference and checksum, and with an empty autoload. It requires exactly the composer client, at any version. Its provides are those of `SwiftMailerProvides`. |
| ContaoPlugin.SwiftMailerProvides | src/ContaoCommunityAlliance/Composer/Plugin/Plugin.php:229-253 | Swift Mailer is provided iff the package is `contao/core` and the Swift Mailer version is known; nothing else is provided. The provide link is `==` that version, with it as the pretty constraint. |
| ContaoPlugin.ScanCompletesIff | src/ContaoCommunityAlliance/Composer/Plugin/Plugin.php:306-321 | A pass over the local packages for one name completes iff every package of that name is a metapackage at a version other than the target. |
| ContaoPlugin.ScanRemovesOnlyItsName | src/ContaoCommunityAlliance/Composer/Plugin/Plugin.php:306-321 | A pass removes only packages of its own name, whether it stops or not. A completed pass removes all of them. |
| ContaoPlugin.CompletedNameHasOnePackage | src/ContaoCommunityAlliance/Composer/Plugin/Plugin.php:306-349 | After a completed pass and the append, the name has exactly one package, the fresh metapackage. Packages of every other name are as they were. |
| ContaoPlugin.InjectKeepsOtherNames | src/ContaoCommunityAlliance/Composer/Plugin/Plugin.php:306-349 | Injection leaves the packages of every name outside the injected list unchanged and in order. |
| ContaoPlugin.StopLeavesOtherNames | src/ContaoCommunityAlliance/Composer/Plugin/Plugin.php:309-316 | When the first name's pass is stopped, injection ends there. Every other name keeps its packages, later names of the list included. |
| ContaoPlugin.FreshInjection | src/ContaoCommunityAlliance/Composer/Plugin/Plugin.php:306-349 | Into a repository holding none of the names, every name's metapackage is appended once, in the list's order. |
| ContaoPlugin.ReinjectionIsNoop | src/ContaoCommunityAlliance/Composer/Plugin/Plugin.php:309-316 | Injecting again after a fresh injection changes nothing: the first name's injected metapackage blocks it. |
| ContaoPlugin.ContaoFourUntouched | src/ContaoCommunityAlliance/Composer/Plugin/Plugin.php:294-296 | A Contao 4 installation gets nothing injected. |
| ContaoPlugin.CoreInjection | src/ContaoCommunityAlliance/Composer/Plugin/Plugin.php:291-350 | Without an environment, or without its constants, injection fails with that error. It succeeds iff the installation is Contao 4 or its build gives a version that normalises. A successful injection leaves the packages of every name outside the provided list as they were. |
| ContaoPlugin.RequiresInjection | src/ContaoCommunityAlliance/Composer/Plugin/Plugin.php:357-381 | A root package that already requires `contao/core-bundle` is left as it is. Otherwise a missing environment, missing constants, an invalid build and an unparsable version each give their error. When all of them are present, the result adds exactly that key: `contao/core-bundle ==` the normalised prepared version, with the prepared version as its pretty constraint. Every other requirement is kept. |
| ContaoPlugin.RequiresPresentNeverFails | src/ContaoCommunityAlliance/Composer/Plugin/Plugin.php:359-361 | With the requirement present, injectRequires succeeds without reading the environment. |
| ContaoPlugin.LocalRepository.RemovePackage | src/ContaoCommunityAlliance/Composer/Plugin/Plugin.php:317-318 | The repository loses the first package with the same name and version, and nothing else. |
| ContaoPlugin.RemoveFirstAfterOthers | src/ContaoCommunityAlliance/Composer/Plugin/Plugin.php:317-318 | Removing a package whose name occurs nowhere before it removes that very package. |
| ContaoPlugin.Plugin.ScanLocalPackages | src/ContaoCommunityAlliance/Composer/Plugin/Plugin.php:307-321 | The loop over a snapshot of the local packages ends with the outcome and the package list that `ScanName` describes. |
| ContaoPlugin.Plugin.InjectContaoCore | src/ContaoCommunityAlliance/Composer/Plugin/Plugin.php:291-350 | The repository ends as `CoreInjection` describes. Each failure is reported as its error and leaves the repository unchanged. |
| ContaoPlugin.Plugin.InjectRequires | src/ContaoCommunityAlliance/Composer/Plugin/Plugin.php:357-381 | The root package's requirements end as `RequiresInjection` describes. A failure leaves them unchanged. |
| ContaoPlugin.InjectionSkipped | src/ContaoCommunityAlliance/Composer/Plugin/Plugin.php:112-114 | Injection happens iff the root package's type is not handled by the registered installer and the root package is not `contao/contao`. |
| ContaoPlugin.LocalRepository.AddPackage | src/ContaoCommunityAlliance/Composer/Plugin/Plugin.php:348 | The package is appended to the local repository and nothing else changes. |
| ContaoPlugin.Plugin.Activate | src/ContaoCommunityAlliance/Composer/Plugin/Plugin.php:90-124 | Activation stores the environment and registers the chosen installer. It injects only when the root package is neither handled by the installer nor `contao/contao`. A missing constants file ends the injection silently; any other failure is raised. |
| Runonce.RunonceManager.AddRunonce | tests/ContaoCommunityAlliance/Composer/Plugin/Test/RunonceManager/RunonceManagerTest.php:54-62 | The path is appended to the queue; a path already queued is not queued again. The tests register every path once, so the duplicate case is a modelling choice. |
| Runonce.RunonceManager.CreateRunonce | tests/ContaoCommunityAlliance/Composer/Plugin/Test/RunonceManager/RunonceManagerTest.php:48-109 | With nothing queued, no file is written. Otherwise `runonce.php` renders the queue. A pending `runonce.php` is moved to `runonce_1.php` byte for byte, and the new file lists it first. The queue is emptied. The written entries are free of duplicates (after a relocation, when the queue does not hold the relocated path). |
| Runonce.NothingToDoScenario | tests/ContaoCommunityAlliance/Composer/Plugin/Test/RunonceManager/RunonceManagerTest.php:48-52 | With nothing registered, creating the runonce script writes no file. |
| Runonce.FiredTwiceScenario | tests/ContaoCommunityAlliance/Composer/Plugin/Test/RunonceManager/RunonceManagerTest.php:64-82 | After two runs, `runonce.php` mentions `system/runonce_1.php` and the second path. `runonce_1.php` mentions the first path and not the second. |
| Runonce.FiredBeforeExecutedScenario | tests/ContaoCommunityAlliance/Composer/Plugin/Test/RunonceManager/RunonceManagerTest.php:84-109 | A pending script is moved to `runonce_1.php` unchanged. The new `runonce.php` lists exactly `system/runonce_1.php` and the second path, not the first, and its text mentions both. |
| Runonce.NotListedIn | tests/ContaoCommunityAlliance/Composer/Plugin/Test/RunonceManager/RunonceManagerTest.php:84-109 | The chained entries are exactly the queued paths that the pending script's text does not contain. They are no more than the queue and stay free of duplicates. |
| Runonce.NoEntryLostOrRepeated | tests/ContaoCommunityAlliance/Composer/Plugin/Test/RunonceManager/RunonceManagerTest.php:84-109 | Every queued path is in the new script or in the relocated one. The new script starts with the relocated path and repeats nothing the relocated one holds. |
| Runonce.NewEntriesDistinct | tests/ContaoCommunityAlliance/Composer/Plugin/Test/RunonceManager/RunonceManagerTest.php:84-109 | A queue without duplicates gives a script that lists no path twice, also after a relocation when the queue does not hold `system/runonce_1.php` itself. |
| Runonce.RenderListsEntry | tests/ContaoCommunityAlliance/Composer/Plugin/Test/RunonceManager/RunonceManagerTest.php:54-62 | Every path without quotes or backslashes that is written into a script occurs in the script's text. |
| Runonce.EscapePlain | tests/ContaoCommunityAlliance/Composer/Plugin/Test/RunonceManager/RunonceManagerTest.php:54-62 | A path without quotes or backslashes is exported unchanged. |
| LegacyInstaller.LegacyContaoModuleInstaller.Install | tests/LegacyContaoModuleInstallerTest.php:55-130 | Install succeeds iff no source file's target is blocked. On success every file has its link, and only directories above those links are new. On failure the error names a blocked target. No existing node is ever changed or removed. |
| LegacyInstaller.LegacyContaoModuleInstaller.LinkFile | tests/LegacyContaoModuleInstallerTest.php:55-106 | Linking an unblocked target creates the missing directories on the way and the link (or finds it there), and adds nothing else. |
| LegacyInstaller.ReinstallIsNoop | tests/LegacyContaoModuleInstallerTest.php:81-106 | Over correct links no target is blocked, and an install leaves the filesystem exactly as it was. |
| LegacyInstaller.TargetsUnrelated | tests/LegacyContaoModuleInstallerTest.php:55-74 | Two different source files have different targets, and neither target lies inside the other. |
| LegacyInstaller.LegacyContaoModuleInstaller.Uninstall | tests/LegacyContaoModuleInstallerTest.php:137-228 | Uninstall removes only the installer's own links and emptied directories below the root. It succeeds iff no target holds a file, a directory or a foreign link; a missing target is skipped. On failure the error names the target, as a foreign link iff it is a link. |
| LegacyInstaller.LegacyContaoModuleInstaller.RemoveLink | tests/LegacyContaoModuleInstallerTest.php:137-158 | The link is removed, together with only the directories above it and below the root. Every surviving directory between them still holds something. |
| LegacyInstaller.EmptiedDirectoryRemoved | tests/LegacyContaoModuleInstallerTest.php:137-158 | After an uninstall, a directory below the root that held nothing but the way down to a removed link is gone. |
| LegacyInstaller.SupportsOnlyLegacyModules | tests/LegacyContaoModuleInstallerTest.php:41-48 | The installer registered for `legacy-contao-module` supports that type and no other. |
| SourcesSpec.GetSourcesSpec | tests/ContaoCommunityAlliance/Composer/Plugin/Test/Installer/AbstractInstaller/GetSourcesSpecTest.php:70-116 | Without a `contao` block the specification is empty. Otherwise its keys are the union of both maps' keys, and a key declared in only one map keeps that map's value. |
| SourcesSpec.SourcesOnly | tests/ContaoCommunityAlliance/Composer/Plugin/Test/Installer/AbstractInstaller/GetSourcesSpecTest.php:77-98 | With only `sources` declared, the specification is exactly that map. |
| SourcesSpec.SourcesSpecExamples | tests/ContaoCommunityAlliance/Composer/Plugin/Test/Installer/AbstractInstaller/GetSourcesSpecTest.php:70-116 | The four cases the test runs: no `contao` block, empty sources, one source, and one source plus one deprecated symlink. |
| SourcesSpec.DisjointMergeSize | tests/ContaoCommunityAlliance/Composer/Plugin/Test/Installer/AbstractInstaller/GetSourcesSpecTest.php:100-115 | With disjoint keys the merge loses no entry: its size is the sum of both maps' sizes. |

## Left out

- The library calls `is_numeric`, `VersionParser::normalize`, `version_compare(…, '4.0', '>=')` and the installer's `supports` are uninterpreted functions of a `Host` value. A normaliser that throws is `None`.
- Regular expressions are encoded as character predicates. Only the two patterns of prepareContaoVersion are modelled, not PCRE in general.
- PHP's loose `==` on names, versions and `preferred-install` is modelled as string equality.
- Composer's repository is not part of this model. `removePackage` is modelled as removing the first package with the same name and version.
- ContaoPlugin.Plugin.InjectContaoCore: PHP calling a getter on a null environment is a fatal error. Here it is the error `NullEnvironment`.
- ContaoPlugin.Plugin.InjectRequires: the `getRoot` call, which only makes the environment load its constants, is not modelled. Missing constants appear as `ConstantsNotFound` from the version getters.
- The Swift Mailer version lookup, which throws when unknown, is an `Option` in the environment.
- The environment detection, the Contao 3 environment and its factory are not modelled; the detected environment is a parameter of `Activate`.
- The `class_exists` call at the end of activate only preloads the housekeeper class and is not modelled.
- The event dispatch and `getSubscribedEvents` are not modelled. `CheckContaoPackage` is the pre-package-install handler, with the plugin's environment passed in.
- handleCommand, handlePostUpdateCmd and handlePostAutoloadDump are not modelled. On `update`, handleCommand creates the artifact repository directory and runs the config manipulator. handlePostUpdateCmd runs the runonce manager's createRunonce and the housekeeper's cache cleaning. handlePostAutoloadDump runs the housekeeper's local config cleaning. All of this is filesystem and Composer I/O.
- Runonce.RunonceManager.CreateRunonce: the numbering beyond `runonce_1.php` is not modelled. With a non-empty queue, the method requires that `runonce.php` and `runonce_1.php` do not both exist.
- Runonce.RunonceManager.AddRunonce: the runonce manager class is not part of this model. Skipping a path that is already queued is a modelling choice: the unit tests never register a path twice.
- Runonce.NotListedIn: "already listed" means a substring of the pending script's text, as the unit tests check with `assertContains`. It is not a parse of the PHP array.
- Runonce.FiredTwiceScenario takes symbolic paths. It requires that both paths hold no quote or backslash and that the second does not occur in the first run's script.
- Runonce.FiredBeforeExecutedScenario takes symbolic paths and a symbolic pending script. It requires that the pending script contains the first path and not the second, and that the second path holds no quote or backslash. It proves that the new script lists exactly `system/runonce_1.php` and the second path, so the first path is not an entry. It does not prove that the first path's text is absent from the script, which the test checks with `assertNotContains`.
- The real files the tests create, temporary directories and file permissions are not modelled. The filesystem is a map from paths to nodes.
- LegacyInstaller.LegacyContaoModuleInstaller.Install: a symlinked directory on the way to a target counts as a blocked path. Links are never followed.
- LegacyInstaller.LegacyContaoModuleInstaller.Install: a failed install keeps the links made before the failure. Only the failing target's error is stated, not which links exist.
- Copy conflicts, sources that escape the package, atomic writes and key collisions between `sources` and `symlinks` are not modelled.
- SourcesSpec.GetSourcesSpec: the value for a key declared in both maps is not stated.
- The copy and symlink installers' code paths and the environment tests are not part of this model.
