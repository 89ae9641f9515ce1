# create-nft-gallery: the project-composition pipeline in Dafny

`create-nft-gallery` scaffolds an NFT gallery web application for an Arweave
Name System (ArNS) domain. Once the prompts are answered, its single command
action builds the project directory in four steps. This project models those
steps and proves what they guarantee.

1. **Overlay.** The base template tree is copied into the project directory.
   The chosen variant tree (`manifold` or `metaplex`) is then copied on top of
   it, overwriting files at the same relative path.
2. **Manifest merge.** The manifest `package.json.ejs` in the project
   directory is parsed. If the variant template ships its own
   `package.json.ejs`, that file is parsed too. Otherwise the second input is
   the literal default `{ dependencies: {}, devDependencies: {}, scripts: {} }`.
   The result
   keeps `name`, `version`, `private` and `type` from the first parse. Its
   `scripts`, `dependencies` and `devDependencies` are built with object
   spread (`{ ...first, ...second }`), so the second parse wins on a shared
   key. The result is written back to `package.json.ejs`.
3. **`.env`.** The tool writes `.env`: a comment header naming the project,
   then `ARNS_NAME`, `NFT_CONTRACT_ADDRESS`, `RPC_ENDPOINT` and a `DEPLOY_KEY`
   placeholder.
4. **Render pass.** The directory is listed once. Each listed file whose name
   ends in `.ejs` is rendered with one shared parameter set. The result is
   written under the same name with exactly one trailing `.ejs` removed, and
   the original is deleted.

How it is modelled:

- A file tree is a `map<Path, string>` from relative path to text
  (`ProjectDirectory.Tree`).
- The project directory is the class `ProjectDirectory.Directory`. It has one
  `files` field, and the filesystem calls the action makes are its methods.
- JavaScript objects are ordered entry lists with unique keys
  (`JsObjects.Object`). Property assignment keeps an existing key in place
  and appends a new one. So the merge is proved both as a dictionary union
  and for the key order that serialisation follows.
- The template engine, `JSON.parse` and `JSON.stringify` are function-valued
  parameters (`Renderer`, `Parser`, `Serializer`), left uninterpreted.
- `Scaffold.Prepare` is a function of the directory's initial contents that
  states steps 1–3. `RenderPass.RenderAll` states step 4 as a fold over the
  listing. The imperative methods `Scaffold.CreateProject` and
  `RenderPass.RenderTemplates` are proved equal to them.

Behaviour of the source that is easy to miss:

- **The variant's manifest replaces the base manifest.** The first merge
  input is read from the project directory *after* the variant overlay. So a
  variant that ships its own `package.json.ejs` merges that file with
  itself. Nothing of the base manifest survives: its scripts and
  dependencies are lost, and `name`, `version`, `private` and `type` are the
  variant file's too, absent where the variant file omits them
  (`Scaffold.VariantManifestReplacesBase`).
- **A missing variant directory leaves the base copy behind.** If the
  chosen variant has no `templates/variants/<name>` directory, the action
  fails only at the second copy. By then the base tree has
  already been copied, so the directory is not left empty
  (`Scaffold.MissingVariantKeepsBaseCopy`).
- **Render order matters for double suffixes.** The render pass is
  independent of listing order, and leaves no `.ejs` file, only when no file
  name ends in `.ejs.ejs` (`RenderPass.RenderComplete`,
  `RenderPass.RenderOrderIrrelevant`). With such a name, one listing order
  leaves a fresh `.ejs` file behind and the other does not
  (`RenderPass.DoubleSuffixDependsOnOrder`).
- **A shipped `.env.ejs` wins.** If the templates ship `.env.ejs`, the render
  pass overwrites the generated `.env` with its rendering
  (`Scaffold.FinalEnvFile`).

## Model

| member | source | states |
|---|---|---|
| `TemplatePaths.IsTemplate` | bin/create-nft-gallery.js:133 | `file.endsWith('.ejs')`: a path is a template exactly when its last four characters are `.`, `e`, `j`, `s` |
| `TemplatePaths.StripTemplate` | bin/create-nft-gallery.js:144 | removing the anchored `.ejs` strips exactly one trailing suffix: the target plus `.ejs` is the original path |
| `TemplatePaths.StripInjective` | bin/create-nft-gallery.js:144 | two different template files never render to the same target path |
| `TemplatePaths.StripAfterAppend` | bin/create-nft-gallery.js:133-144 | any path with `.ejs` appended is a template whose target is that path |
| `JsObjects.Put` | bin/create-nft-gallery.js:85-96 | a property assignment keeps an existing key in its place and appends a new key at the end |
| `JsObjects.PutUnique` | bin/create-nft-gallery.js:85-96 | assignment never duplicates a property name |
| `JsObjects.PutMap` | bin/create-nft-gallery.js:85-96 | assignment changes the value of exactly the assigned key |
| `JsObjects.ToMapAt` | bin/create-nft-gallery.js:85-96 | in an object with unique keys, each entry is the value a lookup of its key finds |
| `JsObjects.ToMapKeys` | bin/create-nft-gallery.js:85-96 | an object's dictionary view has exactly its property names |
| `JsObjects.SpreadInto` | bin/create-nft-gallery.js:85-96 | copying every own property of one object onto another, in order, keeps the target's names as a prefix of the result and adds at most one entry per copied property; `SpreadIntoMap`, `SpreadIntoOrder`, `SpreadIntoSelf` and `SpreadIntoFresh` describe the result fully |
| `JsObjects.SpreadIntoMap` | bin/create-nft-gallery.js:85-96 | spreading an object into another keeps keys unique and is a dictionary union in which the spread object wins |
| `JsObjects.SpreadIntoOrder` | bin/create-nft-gallery.js:85-96 | spreading keeps the target's keys in order and appends the spread object's new keys in its own order |
| `JsObjects.SpreadIntoSelf` | bin/create-nft-gallery.js:85-96 | spreading entries an object already has leaves it unchanged |
| `JsObjects.SpreadIntoFresh` | bin/create-nft-gallery.js:85-96 | spreading entries whose keys are all new appends them unchanged |
| `JsObjects.Spread` | bin/create-nft-gallery.js:85-96 | `{ ...a, ...b }` holds every key of either; `b`'s value wins on a shared key; `a`'s keys come first, then `b`'s new keys |
| `JsObjects.SpreadSelf` | bin/create-nft-gallery.js:85-96 | `{ ...a, ...a }` equals `a` |
| `JsObjects.SpreadEmpty` | bin/create-nft-gallery.js:73-96 | `{ ...a, ...{} }` equals `a` |
| `Manifests.Merge` | bin/create-nft-gallery.js:80-97 | identity fields (`name`, `version`, `private`, `type`) come from the first manifest only; each of the three mappings holds every key of either input, the second input's value on a shared key and the first's otherwise, in spread order; every other top-level field is dropped |
| `Manifests.MergeWithoutVariantManifest` | bin/create-nft-gallery.js:73-97 | with the default `{ dependencies: {}, devDependencies: {}, scripts: {} }`, the merge gives back the first manifest, minus its other top-level fields |
| `Manifests.MergeWithItself` | bin/create-nft-gallery.js:70-97 | merging a manifest with itself gives it back, minus its other top-level fields |
| `EnvFile.EnvLineList` | bin/create-nft-gallery.js:122-126 | `.env` has five lines; each variable line holds its name, `=`, and then exactly the answer given; the last is the `DEPLOY_KEY` placeholder |
| `EnvFile.EnvContent` | bin/create-nft-gallery.js:122-128 | the text written to `.env` ends in a newline; read back line by line it is the list `EnvLines` states |
| `EnvFile.LinesOfJoin` | bin/create-nft-gallery.js:122-127 | splitting newline-terminated lines at newlines gives the lines back |
| `EnvFile.EnvLines` | bin/create-nft-gallery.js:122-127 | read line by line, `.env` is the header comment, `ARNS_NAME=<domain>`, `NFT_CONTRACT_ADDRESS=<answer>`, `RPC_ENDPOINT=<answer>`, the `DEPLOY_KEY` placeholder, in that order, when no answer contains a newline |
| `ProjectDirectory.Overlay` | bin/create-nft-gallery.js:63-67 | a copy with overwrite leaves every path of either tree; the copied tree's content wins on a shared path; other paths keep their content |
| `ProjectDirectory.Directory.constructor` | bin/create-nft-gallery.js:58-59 | `ensureDir` keeps whatever files the directory already holds |
| `ProjectDirectory.Directory.Copy` | bin/create-nft-gallery.js:63-67 | the directory's new files are the overlay of the copied tree on its old files |
| `ProjectDirectory.Directory.ReadFile` | bin/create-nft-gallery.js:135 | reading yields a file's content exactly when the file exists |
| `ProjectDirectory.Directory.WriteFile` | bin/create-nft-gallery.js:145 | writing creates or replaces one file and changes nothing else |
| `ProjectDirectory.Directory.Remove` | bin/create-nft-gallery.js:146 | removing deletes one file and changes nothing else |
| `ProjectDirectory.Directory.ListRecursive` | bin/create-nft-gallery.js:131 | the recursive listing names every file of the directory exactly once, in an unspecified order |
| `RenderPass.RenderStep` | bin/create-nft-gallery.js:133-146 | for a template that exists, the turn removes it, adds its stripped name holding the rendering of its content, and keeps every other file's content; for any other listed path the tree is unchanged |
| `RenderPass.RenderAll` | bin/create-nft-gallery.js:131-148 | the pass never deletes a file without the `.ejs` suffix; `RenderComplete` and `RenderOrderIrrelevant` give its full result when no name ends in `.ejs.ejs`, and `RenderKeepsOthers`, `RenderRemovesTemplate`, `RenderWritesTarget` and `RenderCreatesOnlyTargets` describe it path by path for any listing |
| `RenderPass.RenderTemplates` | bin/create-nft-gallery.js:131-148 | the loop lists the directory once, and leaves it as the fold of render-write-delete over that listing |
| `RenderPass.RenderKeepsOthers` | bin/create-nft-gallery.js:132-147 | a path that is neither a listed template nor a listed template's target is left exactly as it was |
| `RenderPass.RenderRemovesTemplate` | bin/create-nft-gallery.js:133-146 | a listed template is gone afterwards unless a listed `<name>.ejs` renders onto it |
| `RenderPass.RenderWritesTarget` | bin/create-nft-gallery.js:133-146 | a listed template's target afterwards holds the rendering of the template's original content with the shared parameters, when no other listed template writes or deletes either name |
| `RenderPass.RenderCreatesOnlyTargets` | bin/create-nft-gallery.js:133-146 | every file afterwards existed before or is the target of a listed template |
| `RenderPass.RenderComplete` | bin/create-nft-gallery.js:131-148 | over a full listing with no `.ejs.ejs` names, no `.ejs` file remains; each template has its rendered sibling; every other file is unchanged unless a template renders onto it; no other file appears |
| `RenderPass.RenderOrderIrrelevant` | bin/create-nft-gallery.js:131-148 | under the same conditions, any two listing orders give the same directory |
| `RenderPass.DoubleSuffixDependsOnOrder` | bin/create-nft-gallery.js:131-148 | with `a.ejs` and `a.ejs.ejs`, listing `a.ejs` first leaves a fresh `a.ejs` behind and listing it last does not |
| `Scaffold.ParamsFor` | bin/create-nft-gallery.js:136-142 | `includeManifold` is true exactly when the variant is `manifold`; `ARNS_NAME` is the domain; the two `.env` answers are passed through |
| `Scaffold.Compose` | bin/create-nft-gallery.js:58-67 | after both copies the project holds every path of the existing directory, the base and the variant; variant content wins, then base, then what was there |
| `Scaffold.Prepare` | bin/create-nft-gallery.js:58-128 | the pipeline up to the render pass aborts with the missing-template error exactly when the variant has no template directory; once prepared, the project holds both the manifest and `.env`; `PrepareOutcome`, `PreparedContents`, `VariantManifestReplacesBase`, `BaseManifestKeptWithoutVariantManifest` and `MissingVariantKeepsBaseCopy` describe the rest |
| `Scaffold.PrepareOutcome` | bin/create-nft-gallery.js:58-103 | the render pass is reached exactly when the variant directory exists, the composed manifest parses and the variant's own manifest, if shipped, parses; every existing and base path is still there whatever the outcome |
| `Scaffold.CreateProject` | bin/create-nft-gallery.js:57-148 | the action leaves the directory as the preparation function prescribes on every abort, and as the render fold over its listing on success |
| `Scaffold.MissingVariantKeepsBaseCopy` | bin/create-nft-gallery.js:62-67 | a variant without a template directory aborts with the base tree already copied over the existing files |
| `Scaffold.BaseManifestKeptWithoutVariantManifest` | bin/create-nft-gallery.js:70-103 | when the variant ships no manifest, the written manifest is the base manifest with its three mappings unchanged |
| `Scaffold.VariantManifestReplacesBase` | bin/create-nft-gallery.js:63-103 | when the variant ships a manifest, the written manifest is the variant's, whatever the base manifest held |
| `Scaffold.PreparedContents` | bin/create-nft-gallery.js:99-128 | before rendering, the project is the composed tree plus `.env` holding the generated text; only the manifest and `.env` differ from the composed tree |
| `Scaffold.FinalEnvFile` | bin/create-nft-gallery.js:122-148 | `.env` survives the render pass with the generated text, unless a `.env.ejs` is shipped, whose rendering then replaces it |
| `Scaffold.FinalManifest` | bin/create-nft-gallery.js:99-148 | when no `package.json.ejs.ejs` is shipped, after rendering `package.json` holds the rendered merged manifest and `package.json.ejs` is gone |

## Left out

- Command-line parsing and the interactive prompts (lines 16-55 and
  106-119) are not modelled. Their results are the `Answers` inputs. The
  variant is one of the two choices the list prompt offers.
- The templating engine, `JSON.parse` and `JSON.stringify` are parameters
  without a definition. A parse that throws is `None` and aborts.
- A render that throws is not modelled. The renderer is total, so a pass
  that stops halfway through the listing is not represented.
- JSON value types are narrowed. The identity fields are optional strings
  (and a boolean for `private`). Mapping values are strings. Other
  top-level fields are kept as opaque text.
- JavaScript lists integer-like property names first, in ascending order.
  `JsObjects.Put` appends every new key, as it does for ordinary names, so
  that ordering is not modelled.
- Directories are not entries of a `Tree`. Empty directories are not
  modelled, and neither is a directory whose name ends in `.ejs` (reading
  it would fail).
- A file named exactly `.ejs` would render onto its own directory's path.
  The model treats the empty target as an ordinary path.
- Only a missing file is modelled as a filesystem failure. Permission and
  disk errors are not, and neither is a missing base template directory;
  the base tree is taken as shipped.
- A clash between a file and a directory of the same name is not modelled.
  A `Tree` can hold both `x` and `x/y`, and the model carries on. The source
  throws there: the write at line 145 fails when the target is a directory
  (`x.ejs` next to a directory `x/`), and the copies at lines 63 and 67 fail
  when a file meets a directory.
- Path resolution (`path.join`, `fileURLToPath`, `__dirname`, the current
  directory) is not modelled. Paths are relative to the project root.
- Installing dependencies, the git steps, console output and
  `process.exit(1)` (lines 150-170) are left out as subprocess I/O and
  printing.
- The asynchronous scheduling of the awaits is not modelled. Every step runs
  in sequence, as the awaits make it.
