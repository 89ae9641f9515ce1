/**
 * Relative paths inside a template or project tree, and the reserved `.ejs`
 * suffix that marks a file as a template still to be rendered.
 */
module TemplatePaths {

  /** A path relative to the project root, with `/` between directory names. */
  type Path = string

  /** The suffix of a render-pending template file. */
  const TemplateSuffix: string := ".ejs"

  /** `file.endsWith('.ejs')`. */
  predicate IsTemplate(p: Path)
    ensures IsTemplate(p) <==>
      |p| >= 4 && p[|p| - 4] == '.' && p[|p| - 3] == 'e' && p[|p| - 2] == 'j' && p[|p| - 1] == 's'
  {
    |p| >= |TemplateSuffix| && p[|p| - |TemplateSuffix|..] == TemplateSuffix
  }

  /**
   * `filePath.replace(/\.ejs$/, '')`: the anchored pattern removes exactly one
   * trailing `.ejs` and leaves any other extension in place.
   */
  function StripTemplate(p: Path): (q: Path)
    requires IsTemplate(p)
    ensures q + TemplateSuffix == p
    ensures |q| == |p| - |TemplateSuffix|
  {
    p[..|p| - |TemplateSuffix|]
  }

  /** Adding the suffix makes a template path whose stripped form is the original. */
  lemma StripAfterAppend(q: Path)
    ensures IsTemplate(q + TemplateSuffix)
    ensures StripTemplate(q + TemplateSuffix) == q
  {
    assert (q + TemplateSuffix)[|q|..] == TemplateSuffix;
    assert (q + TemplateSuffix)[..|q|] == q;
  }

  /** Two different templates never render to the same target path. */
  lemma StripInjective(p1: Path, p2: Path)
    requires IsTemplate(p1) && IsTemplate(p2)
    ensures StripTemplate(p1) == StripTemplate(p2) <==> p1 == p2
  {
    assert StripTemplate(p1) + TemplateSuffix == p1;
    assert StripTemplate(p2) + TemplateSuffix == p2;
  }
}
