/**
 * The project manifest (`package.json.ejs`) as a parsed record, and the
 * field-by-field merge of a base manifest with a variant manifest.
 */
module Manifests {

  import opened Wrappers
  import opened JsObjects

  /**
   * A parsed manifest. The four identity fields may be absent (`undefined`);
   * an absent mapping reads as the empty object, which is what spreading
   * `undefined` contributes. Every other top-level property is kept in
   * `otherFields` with its value as JSON text.
   */
  datatype Manifest = Manifest(
    name: Option<string>,
    version: Option<string>,
    isPrivate: Option<bool>,
    moduleType: Option<string>,
    scripts: Object,
    dependencies: Object,
    devDependencies: Object,
    otherFields: Object)

  /** What the merge reads when the variant ships no manifest: three empty mappings and nothing else. */
  const NoVariantManifest: Manifest := Manifest(None, None, None, None, [], [], [], [])

  /**
   * `r` is `{ ...a, ...b }`: it has every property of either, the value of
   * `b` wherever `b` has the property, the value of `a` where only `a` has
   * it, and lists `a`'s names first, then the names only `b` has.
   */
  ghost predicate MergedFrom(r: Object, a: Object, b: Object)
  {
    && (forall k :: k in ToMap(r) <==> k in ToMap(a) || k in ToMap(b))
    && (forall k :: k in ToMap(b) ==> ToMap(r)[k] == ToMap(b)[k])
    && (forall k :: k in ToMap(a) && k !in ToMap(b) ==> ToMap(r)[k] == ToMap(a)[k])
    && KeyList(r) == KeyList(a) + Unseen(KeyList(b), KeyList(a))
  }

  /**
   * The merged manifest: identity fields from `base` only, each of the three
   * mappings merged with `variant` winning per key, and every other
   * top-level property of either input dropped.
   */
  function Merge(base: Manifest, variant: Manifest): (r: Manifest)
    ensures r.name == base.name && r.version == base.version
    ensures r.isPrivate == base.isPrivate && r.moduleType == base.moduleType
    ensures MergedFrom(r.scripts, base.scripts, variant.scripts)
    ensures MergedFrom(r.dependencies, base.dependencies, variant.dependencies)
    ensures MergedFrom(r.devDependencies, base.devDependencies, variant.devDependencies)
    ensures r.otherFields == []
  {
    Manifest(
      base.name,
      base.version,
      base.isPrivate,
      base.moduleType,
      Spread(base.scripts, variant.scripts),
      Spread(base.dependencies, variant.dependencies),
      Spread(base.devDependencies, variant.devDependencies),
      [])
  }

  /** Merging with the default of a variant without a manifest gives back the base's mappings unchanged. */
  lemma MergeWithoutVariantManifest(base: Manifest)
    ensures Merge(base, NoVariantManifest) == base.(otherFields := [])
  {
    SpreadEmpty(base.scripts);
    SpreadEmpty(base.dependencies);
    SpreadEmpty(base.devDependencies);
  }

  /** Merging a manifest with itself gives it back, minus its other top-level fields. */
  lemma MergeWithItself(m: Manifest)
    ensures Merge(m, m) == m.(otherFields := [])
  {
    SpreadSelf(m.scripts);
    SpreadSelf(m.dependencies);
    SpreadSelf(m.devDependencies);
  }
}
