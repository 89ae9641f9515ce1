/**
 * The generator's pipeline for one project: compose the base and variant
 * templates into the project directory, merge the manifests, write `.env`,
 * then render every template file.
 */
module Scaffold {

  import opened Wrappers
  import opened TemplatePaths
  import opened Manifests
  import opened EnvFile
  import opened ProjectDirectory
  import opened RenderPass

  /** The two variants the variant prompt offers. */
  datatype Variant = Manifold | Metaplex
  {
    /** The directory name of the variant under `templates/variants/`. */
    function Name(): string
    {
      match this
      case Manifold => "manifold"
      case Metaplex => "metaplex"
    }
  }

  /** What the command line and the prompts supply. */
  datatype Answers = Answers(
    projectName: string,
    variant: Variant,
    domain: string,
    nftContractAddress: string,
    rpcEndpoint: string)

  /** The shipped templates: `templates/base/` and each `templates/variants/<name>/`. */
  datatype TemplateStore = TemplateStore(base: Tree, variants: map<string, Tree>)

  /** The ways the pipeline aborts before rendering. */
  datatype Error =
    | TemplateNotFound(variant: string)
    | ManifestNotFound
    | ProjectManifestInvalid
    | VariantManifestInvalid

  /** `JSON.parse` on a manifest's text; `None` when it throws. */
  type Parser = string -> Option<Manifest>

  /** `JSON.stringify(manifest, null, 2)`. */
  type Serializer = Manifest -> string

  const ManifestPath: Path := "package.json.ejs"

  const EnvPath: Path := ".env"

  /** The one parameter set every template is rendered with. */
  function ParamsFor(a: Answers): (p: RenderParams)
    ensures p.includeManifold <==> a.variant == Manifold
    ensures p.name == a.projectName
    ensures p.domain == a.domain && p.arnsName == a.domain
    ensures p.nftContractAddress == a.nftContractAddress && p.rpcEndpoint == a.rpcEndpoint
  {
    RenderParams(a.projectName, a.domain, a.variant.Name() == "manifold", a.domain, a.nftContractAddress, a.rpcEndpoint)
  }

  /**
   * The project after both copies: every file of the three layers; a
   * variant file wins over everything, a base file over what was there.
   */
  function Compose(existing: Tree, base: Tree, variant: Tree): (r: Tree)
    ensures r.Keys == existing.Keys + base.Keys + variant.Keys
    ensures forall p :: p in variant ==> r[p] == variant[p]
    ensures forall p :: p in base && p !in variant ==> r[p] == base[p]
    ensures forall p :: p in existing && p !in base && p !in variant ==> r[p] == existing[p]
  {
    Overlay(Overlay(existing, base), variant)
  }

  /** Where the pipeline stands before the render pass: ready, or stopped with the directory as it was left. */
  datatype Stage = Prepared(files: Tree) | Aborted(files: Tree, error: Error)

  /** Everything up to the render pass, as a function of the directory's initial files. */
  function Prepare(existing: Tree, store: TemplateStore, a: Answers, parse: Parser, stringify: Serializer): (s: Stage)
    ensures s == Aborted(s.files, TemplateNotFound(a.variant.Name())) <==> a.variant.Name() !in store.variants
    ensures s.Prepared? ==> ManifestPath in s.files && EnvPath in s.files
  {
    var withBase := Overlay(existing, store.base);
    var name := a.variant.Name();
    if name !in store.variants then Aborted(withBase, TemplateNotFound(name))
    else
      var variantTree := store.variants[name];
      var composed := Compose(existing, store.base, variantTree);
      if ManifestPath !in composed then Aborted(composed, ManifestNotFound)
      else
        match parse(composed[ManifestPath])
        case None => Aborted(composed, ProjectManifestInvalid)
        case Some(baseManifest) =>
          var variantManifest :=
            if ManifestPath in variantTree then parse(variantTree[ManifestPath]) else Some(NoVariantManifest);
          match variantManifest
          case None => Aborted(composed, VariantManifestInvalid)
          case Some(vm) =>
            var env := EnvContent(a.projectName, a.domain, a.nftContractAddress, a.rpcEndpoint);
            Prepared(composed[ManifestPath := stringify(Merge(baseManifest, vm))][EnvPath := env])
  }

  /**
   * The pipeline reaches the render pass exactly when the variant directory
   * exists, the composed tree holds a manifest that parses, and the
   * variant's own manifest, if it ships one, parses too. Nothing the
   * copies put in place is lost, whatever the outcome.
   */
  lemma PrepareOutcome(existing: Tree, store: TemplateStore, a: Answers, parse: Parser, stringify: Serializer)
    ensures var s := Prepare(existing, store, a, parse, stringify);
      && existing.Keys + store.base.Keys <= s.files.Keys
      && (s.Prepared? <==>
            && a.variant.Name() in store.variants
            && var variantTree := store.variants[a.variant.Name()];
               var composed := Compose(existing, store.base, variantTree);
               && ManifestPath in composed
               && parse(composed[ManifestPath]).Some?
               && (ManifestPath in variantTree ==> parse(variantTree[ManifestPath]).Some?))
  {
  }

  /**
   * The body of the command's action, from creating the directory to the
   * end of the render pass. On an abort the directory keeps what was
   * written so far; nothing is rolled back.
   */
  method CreateProject(dir: Directory, store: TemplateStore, a: Answers, parse: Parser, stringify: Serializer, render: Renderer)
    returns (listing: seq<Path>, error: Option<Error>)
    modifies dir
    ensures match Prepare(old(dir.files), store, a, parse, stringify)
      case Aborted(f, e) => error == Some(e) && listing == [] && dir.files == f
      case Prepared(f) =>
        error == None && Enumerates(listing, f) && dir.files == RenderAll(f, listing, ParamsFor(a), render)
  {
    listing := [];
    dir.Copy(store.base);
    var name := a.variant.Name();
    if name !in store.variants {
      return listing, Some(TemplateNotFound(name));
    }
    var variantTree := store.variants[name];
    dir.Copy(variantTree);
    var baseText := dir.ReadFile(ManifestPath);
    if baseText.None? {
      return listing, Some(ManifestNotFound);
    }
    var baseManifest := parse(baseText.value);
    if baseManifest.None? {
      return listing, Some(ProjectManifestInvalid);
    }
    var variantManifest := NoVariantManifest;
    if ManifestPath in variantTree {
      var parsed := parse(variantTree[ManifestPath]);
      if parsed.None? {
        return listing, Some(VariantManifestInvalid);
      }
      variantManifest := parsed.value;
    }
    dir.WriteFile(ManifestPath, stringify(Merge(baseManifest.value, variantManifest)));
    dir.WriteFile(EnvPath, EnvContent(a.projectName, a.domain, a.nftContractAddress, a.rpcEndpoint));
    listing := RenderTemplates(dir, ParamsFor(a), render);
    error := None;
  }

  /**
   * A variant without a template directory stops the pipeline after the
   * base copy: the directory holds the base tree over what was there.
   */
  lemma MissingVariantKeepsBaseCopy(existing: Tree, store: TemplateStore, a: Answers, parse: Parser, stringify: Serializer)
    requires a.variant.Name() !in store.variants
    ensures Prepare(existing, store, a, parse, stringify)
      == Aborted(Overlay(existing, store.base), TemplateNotFound(a.variant.Name()))
  {
  }

  /**
   * A variant without its own `package.json.ejs` keeps the base manifest's
   * mappings as they are: the merged manifest is the base one without its
   * other top-level fields.
   */
  lemma BaseManifestKeptWithoutVariantManifest(
    existing: Tree, store: TemplateStore, a: Answers, parse: Parser, stringify: Serializer, bm: Manifest)
    requires a.variant.Name() in store.variants
    requires ManifestPath !in store.variants[a.variant.Name()]
    requires ManifestPath in store.base && parse(store.base[ManifestPath]) == Some(bm)
    ensures var s := Prepare(existing, store, a, parse, stringify);
      s.Prepared? && s.files[ManifestPath] == stringify(bm.(otherFields := []))
  {
    MergeWithoutVariantManifest(bm);
  }

  /**
   * A variant with its own `package.json.ejs` has overwritten the base one
   * before the merge reads it, so both merge inputs are the variant's
   * manifest: the result is that manifest, and whatever the base manifest
   * listed (its dependencies included) is not carried over.
   */
  lemma VariantManifestReplacesBase(
    existing: Tree, store: TemplateStore, a: Answers, parse: Parser, stringify: Serializer, vm: Manifest)
    requires a.variant.Name() in store.variants
    requires ManifestPath in store.variants[a.variant.Name()]
    requires parse(store.variants[a.variant.Name()][ManifestPath]) == Some(vm)
    ensures var s := Prepare(existing, store, a, parse, stringify);
      s.Prepared? && s.files[ManifestPath] == stringify(vm.(otherFields := []))
  {
    MergeWithItself(vm);
  }

  /**
   * Before rendering, the project holds the composed tree with the merged
   * manifest at `package.json.ejs` and the generated `.env`; nothing else changed.
   */
  lemma PreparedContents(existing: Tree, store: TemplateStore, a: Answers, parse: Parser, stringify: Serializer)
    requires Prepare(existing, store, a, parse, stringify).Prepared?
    ensures var f := Prepare(existing, store, a, parse, stringify).files;
      var composed := Compose(existing, store.base, store.variants[a.variant.Name()]);
      && f.Keys == composed.Keys + {EnvPath}
      && f[EnvPath] == EnvContent(a.projectName, a.domain, a.nftContractAddress, a.rpcEndpoint)
      && (forall p :: p in composed && p != ManifestPath && p != EnvPath ==> f[p] == composed[p])
  {
    var variantTree := store.variants[a.variant.Name()];
    var composed := Compose(existing, store.base, variantTree);
    var bm := parse(composed[ManifestPath]).value;
    var vm := if ManifestPath in variantTree then parse(variantTree[ManifestPath]).value else NoVariantManifest;
    var env := EnvContent(a.projectName, a.domain, a.nftContractAddress, a.rpcEndpoint);
    assert Prepare(existing, store, a, parse, stringify) == Prepared(composed[ManifestPath := stringify(Merge(bm, vm))][EnvPath := env]);
    WithGenerated(composed, stringify(Merge(bm, vm)), env);
  }

  /** Writing the manifest and `.env` into a tree that holds a manifest. */
  lemma WithGenerated(composed: Tree, manifest: string, env: string)
    requires ManifestPath in composed
    ensures var f := composed[ManifestPath := manifest][EnvPath := env];
      && f.Keys == composed.Keys + {EnvPath}
      && f[EnvPath] == env
      && (forall p :: p in composed && p != ManifestPath && p != EnvPath ==> f[p] == composed[p])
  {
  }

  /** The render pass on `.env` alone, for any tree and full listing. */
  lemma RenderedEnv(f: Tree, listing: seq<Path>, params: RenderParams, render: Renderer)
    requires Enumerates(listing, f) && EnvPath in f
    ensures var r := RenderAll(f, listing, params, render);
      && EnvPath in r
      && (EnvPath + TemplateSuffix !in f ==> r[EnvPath] == f[EnvPath])
      && (EnvPath + TemplateSuffix in f && EnvPath + TemplateSuffix + TemplateSuffix !in f ==>
            r[EnvPath] == render(f[EnvPath + TemplateSuffix], params))
  {
    assert !IsTemplate(EnvPath);
    if EnvPath + TemplateSuffix in f {
      StripAfterAppend(EnvPath);
      if EnvPath + TemplateSuffix + TemplateSuffix !in f {
        RenderWritesTarget(f, listing, params, render, EnvPath + TemplateSuffix);
      }
    } else {
      RenderKeepsOthers(f, listing, params, render, EnvPath);
    }
  }

  /** The render pass on the manifest alone, for any tree and full listing. */
  lemma RenderedManifest(f: Tree, listing: seq<Path>, params: RenderParams, render: Renderer)
    requires Enumerates(listing, f) && ManifestPath in f && ManifestPath + TemplateSuffix !in f
    ensures var r := RenderAll(f, listing, params, render);
      "package.json" in r && r["package.json"] == render(f[ManifestPath], params) && ManifestPath !in r
  {
    assert IsTemplate(ManifestPath) && StripTemplate(ManifestPath) == "package.json";
    assert !IsTemplate("package.json");
    RenderWritesTarget(f, listing, params, render, ManifestPath);
    RenderRemovesTemplate(f, listing, params, render, ManifestPath);
  }

  /**
   * After the render pass the generated `.env` is still there unchanged,
   * unless the templates ship a `.env.ejs`, whose rendering then replaces it.
   */
  lemma FinalEnvFile(existing: Tree, store: TemplateStore, a: Answers, parse: Parser, stringify: Serializer,
                     render: Renderer, listing: seq<Path>)
    requires Prepare(existing, store, a, parse, stringify).Prepared?
    requires Enumerates(listing, Prepare(existing, store, a, parse, stringify).files)
    ensures var f := Prepare(existing, store, a, parse, stringify).files;
      var r := RenderAll(f, listing, ParamsFor(a), render);
      && EnvPath in r
      && (EnvPath + TemplateSuffix !in f ==> r[EnvPath] == EnvContent(a.projectName, a.domain, a.nftContractAddress, a.rpcEndpoint))
      && (EnvPath + TemplateSuffix in f && EnvPath + TemplateSuffix + TemplateSuffix !in f ==>
            r[EnvPath] == render(f[EnvPath + TemplateSuffix], ParamsFor(a)))
  {
    PreparedContents(existing, store, a, parse, stringify);
    RenderedEnv(Prepare(existing, store, a, parse, stringify).files, listing, ParamsFor(a), render);
  }

  /**
   * After the render pass `package.json` holds the rendered merged manifest
   * and `package.json.ejs` is gone, unless a `package.json.ejs.ejs` is shipped too.
   */
  lemma FinalManifest(existing: Tree, store: TemplateStore, a: Answers, parse: Parser, stringify: Serializer,
                      render: Renderer, listing: seq<Path>)
    requires Prepare(existing, store, a, parse, stringify).Prepared?
    requires Enumerates(listing, Prepare(existing, store, a, parse, stringify).files)
    requires ManifestPath + TemplateSuffix !in Prepare(existing, store, a, parse, stringify).files
    ensures var f := Prepare(existing, store, a, parse, stringify).files;
      var r := RenderAll(f, listing, ParamsFor(a), render);
      && ManifestPath in f
      && "package.json" in r && r["package.json"] == render(f[ManifestPath], ParamsFor(a))
      && ManifestPath !in r
  {
    RenderedManifest(Prepare(existing, store, a, parse, stringify).files, listing, ParamsFor(a), render);
  }
}
