/**
 * The sources specification of a Contao package: the `extra.contao` block of
 * its composer.json names source directories under `sources` and, through the
 * deprecated `symlinks` key, directories that are always symlinked. The
 * installer works from the union of both maps.
 */
module SourcesSpec {
  import opened Results

  /** Logical key -> directory relative to the package root. */
  type SourceMap = map<string, string>

  /** The `contao` block of a package's `extra` section; an absent key is None. */
  datatype ContaoExtra = ContaoExtra(sources: Option<SourceMap>, symlinks: Option<SourceMap>)

  function OrEmpty(m: Option<SourceMap>): SourceMap {
    if m.Some? then m.value else map[]
  }

  /**
   * AbstractInstaller::getSourcesSpec: the `sources` entries merged with the
   * `symlinks` entries. Without a `contao` block the result is empty. Which
   * value wins on a key declared in both maps is not part of this contract.
   */
  function GetSourcesSpec(contao: Option<ContaoExtra>): (r: SourceMap)
    ensures contao.None? ==> r == map[]
    ensures contao.Some? ==>
      r.Keys == OrEmpty(contao.value.sources).Keys + OrEmpty(contao.value.symlinks).Keys
    ensures contao.Some? ==>
      forall k :: k in OrEmpty(contao.value.sources) && k !in OrEmpty(contao.value.symlinks) ==>
        r[k] == OrEmpty(contao.value.sources)[k]
    ensures contao.Some? ==>
      forall k :: k in OrEmpty(contao.value.symlinks) && k !in OrEmpty(contao.value.sources) ==>
        r[k] == OrEmpty(contao.value.symlinks)[k]
  {
    if contao.None? then map[]
    else OrEmpty(contao.value.sources) + OrEmpty(contao.value.symlinks)
  }

  /** With only `sources` declared, the specification is exactly that map. */
  lemma SourcesOnly(sources: SourceMap)
    ensures GetSourcesSpec(Some(ContaoExtra(Some(sources), None))) == sources
  {
    var r := GetSourcesSpec(Some(ContaoExtra(Some(sources), None)));
    assert r.Keys == sources.Keys;
    assert forall k :: k in r ==> r[k] == sources[k];
  }

  /**
   * With disjoint keys the merge loses nothing: one entry per declared
   * mapping entry, so the size is the sum of both maps' sizes.
   */
  lemma DisjointMergeSize(sources: SourceMap, symlinks: SourceMap)
    requires sources.Keys !! symlinks.Keys
    ensures |GetSourcesSpec(Some(ContaoExtra(Some(sources), Some(symlinks))))| == |sources| + |symlinks|
  {
    var r := GetSourcesSpec(Some(ContaoExtra(Some(sources), Some(symlinks))));
    assert r.Keys == sources.Keys + symlinks.Keys;
    assert |r.Keys| == |sources.Keys| + |symlinks.Keys|;
  }

  /** The four cases the installer's unit test exercises. */
  lemma SourcesSpecExamples()
    ensures GetSourcesSpec(None) == map[]
    ensures GetSourcesSpec(Some(ContaoExtra(Some(map[]), None))) == map[]
    ensures GetSourcesSpec(Some(ContaoExtra(Some(map["src" := "system/modules/some-extension"]), None)))
         == map["src" := "system/modules/some-extension"]
    ensures GetSourcesSpec(Some(ContaoExtra(
              Some(map["src" := "system/modules/some-extension"]),
              Some(map["deprecated-symlinking" := "system/modules/some-other-extension"]))))
         == map["src" := "system/modules/some-extension",
                "deprecated-symlinking" := "system/modules/some-other-extension"]
  {
    SourcesOnly(map[]);
    SourcesOnly(map["src" := "system/modules/some-extension"]);
  }
}
