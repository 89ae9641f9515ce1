/**
 * The render-and-rename pass: every template file in a listing taken once
 * up front is rendered with one shared parameter set, written under its
 * name without the `.ejs` suffix, and deleted.
 */
module RenderPass {

  import opened TemplatePaths
  import opened ProjectDirectory

  /** The values every template is rendered with. */
  datatype RenderParams = RenderParams(
    name: string,
    domain: string,
    includeManifold: bool,
    arnsName: string,
    nftContractAddress: string,
    rpcEndpoint: string)

  /** The template engine: template text and parameters to rendered text (not modelled further). */
  type Renderer = (string, RenderParams) -> string

  /**
   * One turn of the loop, for listed path `p`: a template is read, its
   * rendering written under the stripped name, and the template deleted;
   * any other path is skipped. A listed template that is no longer in the
   * tree is skipped too, where the read would throw; the listing
   * `RenderTemplates` takes never reaches that case.
   */
  function RenderStep(files: Tree, p: Path, params: RenderParams, render: Renderer): (r: Tree)
    ensures !(IsTemplate(p) && p in files) ==> r == files
    ensures IsTemplate(p) && p in files ==>
      && r.Keys == files.Keys - {p} + {StripTemplate(p)}
      && r[StripTemplate(p)] == render(files[p], params)
      && (forall q :: q in r && q != StripTemplate(p) ==> r[q] == files[q])
  {
    if IsTemplate(p) && p in files then
      files[StripTemplate(p) := render(files[p], params)] - {p}
    else
      files
  }

  /** The whole loop over `listing`, in listing order. */
  function RenderAll(files: Tree, listing: seq<Path>, params: RenderParams, render: Renderer): (r: Tree)
    ensures forall q :: q in files && !IsTemplate(q) ==> q in r
    decreases |listing|
  {
    if listing == [] then files
    else RenderStep(RenderAll(files, listing[..|listing| - 1], params, render), listing[|listing| - 1], params, render)
  }

  /** The loop of the generator, run on the project directory in place. */
  method RenderTemplates(dir: Directory, params: RenderParams, render: Renderer) returns (listing: seq<Path>)
    modifies dir
    ensures Enumerates(listing, old(dir.files))
    ensures dir.files == RenderAll(old(dir.files), listing, params, render)
  {
    listing := dir.ListRecursive();
    ghost var start := dir.files;
    var i := 0;
    while i < |listing|
      invariant 0 <= i <= |listing|
      invariant dir.files == RenderAll(start, listing[..i], params, render)
      invariant forall j :: i <= j < |listing| ==> listing[j] in dir.files
    {
      var file := listing[i];
      assert listing[..i + 1][..i] == listing[..i];
      if IsTemplate(file) {
        var content := dir.ReadFile(file);
        var rendered := render(content.value, params);
        dir.WriteFile(StripTemplate(file), rendered);
        dir.Remove(file);
      }
      i := i + 1;
    }
    assert listing[..i] == listing;
  }

  /** A path that is no listed template and no listed template's target is left exactly as it was. */
  lemma {:induction false} RenderKeepsOthers(files: Tree, listing: seq<Path>, params: RenderParams, render: Renderer, q: Path)
    requires !(q in listing && IsTemplate(q))
    requires q + TemplateSuffix !in listing
    ensures var r := RenderAll(files, listing, params, render);
      (q in r <==> q in files) && (q in files ==> r[q] == files[q])
    decreases |listing|
  {
    if listing != [] {
      var init, last := listing[..|listing| - 1], listing[|listing| - 1];
      assert listing == init + [last];
      RenderKeepsOthers(files, init, params, render, q);
      assert IsTemplate(last) ==> StripTemplate(last) != q;
    }
  }

  /** A listed template is gone afterwards, unless a longer listed template renders onto its name. */
  lemma {:induction false} RenderRemovesTemplate(files: Tree, listing: seq<Path>, params: RenderParams, render: Renderer, p: Path)
    requires p in listing && IsTemplate(p)
    requires p + TemplateSuffix !in listing
    ensures p !in RenderAll(files, listing, params, render)
    decreases |listing|
  {
    var init, last := listing[..|listing| - 1], listing[|listing| - 1];
    assert listing == init + [last];
    if last != p {
      RenderRemovesTemplate(files, init, params, render, p);
      assert IsTemplate(last) ==> StripTemplate(last) != p;
    }
  }

  /**
   * A listed template whose name no other listed template renders onto, and
   * whose target is not itself a listed template, ends up rendered from its
   * original content under its name without the suffix.
   */
  lemma {:induction false} RenderWritesTarget(files: Tree, listing: seq<Path>, params: RenderParams, render: Renderer, p: Path)
    requires forall i, j :: 0 <= i < j < |listing| ==> listing[i] != listing[j]
    requires p in listing && IsTemplate(p) && p in files
    requires p + TemplateSuffix !in listing
    requires !(StripTemplate(p) in listing && IsTemplate(StripTemplate(p)))
    ensures var r := RenderAll(files, listing, params, render);
      StripTemplate(p) in r && r[StripTemplate(p)] == render(files[p], params)
    decreases |listing|
  {
    var init, last := listing[..|listing| - 1], listing[|listing| - 1];
    assert listing == init + [last];
    var q := StripTemplate(p);
    if last == p {
      assert p !in init;
      RenderKeepsOthers(files, init, params, render, p);
    } else {
      RenderWritesTarget(files, init, params, render, p);
      if IsTemplate(last) {
        StripInjective(last, p);
      }
    }
  }

  /** Every file afterwards was there before or is the target of a listed template. */
  lemma {:induction false} RenderCreatesOnlyTargets(files: Tree, listing: seq<Path>, params: RenderParams, render: Renderer, q: Path)
    requires q in RenderAll(files, listing, params, render)
    ensures q in files || q + TemplateSuffix in listing
    decreases |listing|
  {
    if listing != [] {
      var init, last := listing[..|listing| - 1], listing[|listing| - 1];
      assert listing == init + [last];
      if IsTemplate(last) && StripTemplate(last) == q {
        assert last == q + TemplateSuffix;
      } else {
        RenderCreatesOnlyTargets(files, init, params, render, q);
      }
    }
  }

  /** No file name carries the template suffix twice. */
  ghost predicate NoDoubleSuffix(files: Tree)
  {
    forall p :: p in files && IsTemplate(p) ==> !IsTemplate(StripTemplate(p))
  }

  /**
   * When the listing is the whole tree and no name carries the suffix
   * twice, the pass is complete: no template is left, each one has its
   * rendered sibling, and every other file is untouched unless a template
   * renders onto it.
   */
  lemma RenderComplete(files: Tree, listing: seq<Path>, params: RenderParams, render: Renderer)
    requires Enumerates(listing, files)
    requires NoDoubleSuffix(files)
    ensures var r := RenderAll(files, listing, params, render);
      && (forall q :: q in r ==> !IsTemplate(q))
      && (forall p :: p in files && IsTemplate(p) ==>
            StripTemplate(p) in r && r[StripTemplate(p)] == render(files[p], params))
      && (forall q :: q in files && !IsTemplate(q) && q + TemplateSuffix !in files ==>
            q in r && r[q] == files[q])
      && (forall q :: q in r ==> q in files || q + TemplateSuffix in files)
  {
    var r := RenderAll(files, listing, params, render);
    forall q | q in r
      ensures !IsTemplate(q)
      ensures q in files || q + TemplateSuffix in files
    {
      RenderCreatesOnlyTargets(files, listing, params, render, q);
      if IsTemplate(q) {
        if q + TemplateSuffix in listing {
          StripAfterAppend(q);
        } else {
          RenderRemovesTemplate(files, listing, params, render, q);
        }
      }
    }
    forall p | p in files && IsTemplate(p)
      ensures StripTemplate(p) in r && r[StripTemplate(p)] == render(files[p], params)
    {
      StripAfterAppend(p);
      RenderWritesTarget(files, listing, params, render, p);
    }
    forall q | q in files && !IsTemplate(q) && q + TemplateSuffix !in files
      ensures q in r && r[q] == files[q]
    {
      RenderKeepsOthers(files, listing, params, render, q);
    }
  }

  /** Under the same conditions the order of the listing does not matter. */
  lemma RenderOrderIrrelevant(files: Tree, listing1: seq<Path>, listing2: seq<Path>, params: RenderParams, render: Renderer)
    requires Enumerates(listing1, files) && Enumerates(listing2, files)
    requires NoDoubleSuffix(files)
    ensures RenderAll(files, listing1, params, render) == RenderAll(files, listing2, params, render)
  {
    var r1, r2 := RenderAll(files, listing1, params, render), RenderAll(files, listing2, params, render);
    RenderComplete(files, listing1, params, render);
    RenderComplete(files, listing2, params, render);
    forall q | q in r1 || q in r2
      ensures q in r1 && q in r2 && r1[q] == r2[q]
    {
      if q + TemplateSuffix in files {
        StripAfterAppend(q);
      }
    }
  }

  /**
   * With a doubly suffixed name the order does matter: listing `a.ejs`
   * first leaves a fresh `a.ejs` behind, listing it last does not.
   */
  lemma DoubleSuffixDependsOnOrder(params: RenderParams, render: Renderer)
    ensures var files := map["a.ejs" := "x", "a.ejs.ejs" := "y"];
      && "a.ejs" in RenderAll(files, ["a.ejs", "a.ejs.ejs"], params, render)
      && "a.ejs" !in RenderAll(files, ["a.ejs.ejs", "a.ejs"], params, render)
  {
    var files := map["a.ejs" := "x", "a.ejs.ejs" := "y"];
    assert IsTemplate("a.ejs") && StripTemplate("a.ejs") == "a";
    assert IsTemplate("a.ejs.ejs") && StripTemplate("a.ejs.ejs") == "a.ejs";
    assert ["a.ejs", "a.ejs.ejs"][..1] == ["a.ejs"];
    assert ["a.ejs.ejs", "a.ejs"][..1] == ["a.ejs.ejs"];
  }
}
