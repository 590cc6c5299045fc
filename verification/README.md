# DeploymentConfig → Deployment rewrite, modelled in Dafny

The repository turns OpenShift `DeploymentConfig` manifests into Kubernetes
`Deployment` manifests by rewriting the parsed YAML tree in place. It does
this twice, in two slightly different ways:

- `convert_deploymentconfig_to_deployment` (convert_deployment_config.py,
  lines 15-88). It relabels the manifest, forces a `RollingUpdate` strategy,
  moves bare selector labels under `matchLabels`, and points the first
  container's image at the registry. It then deletes the fields a
  `Deployment` does not have.
- The inline loop of python.py (lines 27-108). It drops one trailing empty
  document, then converts every `DeploymentConfig` in the file with its own
  copy of the same steps. It uses a different registry host and a different
  deletion list.

The model works on the already-parsed document tree `YamlTree.Y`: mappings
with string keys, lists, strings, `None`, and other scalars. Python's
subscription `y[k]` is `YamlTree.Get` along a path. It yields one of three
outcomes:

- a value (`Found`);
- a `KeyError`/`IndexError` (`Missing`), which every step of the converter
  catches;
- a `TypeError` (`Clash`), which no step catches.

Each guarded step is a function that applies, skips, or raises (`Steps`,
`DeploymentRewrite`). The library converter is `ConvertDeploymentConfig`,
and the inline loop is `ManifestLoop`. The properties of each are in
`LibraryFacts` and `LoopFacts`.

The registry host is a parameter. The two hosts the scripts use are the
constants `ConvertDeploymentConfig.LibraryRegistry` and
`ManifestLoop.ScriptRegistry`.

Three details of the code shape what the model states:

- The image name is read from `triggers[0]` only, and no namespace is
  prefixed to it.
- `spec.status` is never deleted. The library deletes the top-level
  `status`, and the inline loop deletes neither.
- A non-empty document without a `kind` raises a `KeyError` that ends the
  whole file (python.py line 43). It is not skipped.

The stated properties are of three kinds:

- **Exact post-shape.** The result's strategy, selector and image are stated
  exactly.
- **Frame.** Every lookup outside the paths a step may change reads the same
  before and after.
- **Exact failure conditions.** A conversion raises if and only if a
  condition read off the input holds.

On top of these come idempotence and list-level pass-through.

## Model

| member | source | states |
|---|---|---|
| DeploymentRewrite.Relabel | convert_deployment_config.py:20-21 | the manifest becomes a `Deployment` of `apps/v1` whatever it held, keeps every other key, and changes no lookup other than `kind` and `apiVersion` |
| LibraryFacts.LemmaRelabels | convert_deployment_config.py:20-21 | a converted manifest always has `kind: Deployment` and `apiVersion: apps/v1`, whatever the later steps did |
| DeploymentRewrite.StrategyStep | convert_deployment_config.py:24-32 | raises exactly when `spec` or `spec.strategy` exists but is no mapping. An absent strategy is a caught `KeyError` and leaves the manifest as it was. A mapping gets `type: RollingUpdate` and loses `rollingParams` and `activeDeadlineSeconds`, and nothing outside those three entries changes |
| DeploymentRewrite.LemmaStrategySettled | convert_deployment_config.py:24-32 | a strategy that is already a bare `RollingUpdate` passes the step unchanged |
| LibraryFacts.LemmaStrategy | convert_deployment_config.py:24-78 | in the result, a strategy mapping is the input's with `type` forced to `RollingUpdate` and exactly `rollingParams`, `activeDeadlineSeconds` and `resources` removed. An absent strategy stays absent |
| LibraryFacts.LemmaSpecAbsent | convert_deployment_config.py:24-86 | a manifest without `spec` gets none: no step creates structure under a missing path |
| Selector.Migrate | convert_deployment_config.py:37-48 | migration fails exactly when `matchLabels` is there but is no mapping and some other entry must be copied into it. Otherwise the selector's only key is `matchLabels`, holding every former sibling entry, and those entries override same-named labels that `matchLabels` already had |
| Selector.LemmaMigrateIdempotent | convert_deployment_config.py:37-48 | migrating a migrated selector gives it back unchanged |
| Selector.LemmaMigratePlainLabels | convert_deployment_config.py:37-48 | a selector of bare labels ends up as `matchLabels` holding exactly those labels |
| DeploymentRewrite.SelectorBlock | convert_deployment_config.py:35-48 | the block skips exactly when the selector is absent, and raises exactly when migration raises. Otherwise the selector becomes the migrated one and nothing else changes |
| ConvertDeploymentConfig.LemmaHandleAgrees | convert_deployment_config.py:49-62 | a handler whose diagnostic did not raise leaves the step's outcome exactly as a silent handler would: the library's diagnostic can add a failure but never change a result |
| DeploymentRewrite.SelectorStep | convert_deployment_config.py:35-50 | the selector step with its handler fails exactly when migration raises, or when the selector is absent and the diagnostic cannot read the name. It changes only `spec.selector` |
| DeploymentRewrite.LemmaSelectorSettled | convert_deployment_config.py:35-48 | a selector that migration leaves alone passes the step unchanged |
| LibraryFacts.LemmaSelector | convert_deployment_config.py:35-50 | in a converted manifest, a selector mapping is exactly what migration makes of the input's selector: only `matchLabels`, holding the former siblings over the old labels. An absent selector stays absent |
| DeploymentRewrite.ImageBlock | convert_deployment_config.py:53-60 | the block skips exactly when the trigger-name chain, or, once a name is found, the first-container chain ends in a `KeyError` or `IndexError`, and raises exactly when the trigger-name chain, or, once a name is found, the first-container chain meets a `TypeError`. Otherwise the first container's `image` becomes `registry/` followed by the name's text, and nothing else changes |
| DeploymentRewrite.ImageStep | convert_deployment_config.py:53-62 | the image step with its handler fails exactly when the chain raises, or when the step is skipped and the diagnostic cannot read the name |
| LibraryFacts.LemmaImage | convert_deployment_config.py:52-62 | if the first trigger names image `n` and a first container exists, that container's image in the result is `registry + "/" + n`, taken from the trigger before the deletion. Otherwise `spec.template` is exactly the input's |
| Steps.Assign | convert_deployment_config.py:25 | `node[k] = v` on a path skips on a missing node and raises on a non-mapping. Otherwise it sets exactly that entry and changes nothing outside `p + [k]` |
| Steps.Delete | convert_deployment_config.py:28 | `del node[k]` skips on a missing node or key and raises on a non-mapping. Otherwise it removes exactly that entry |
| Steps.DropKeys | convert_deployment_config.py:64-70 | a loop of guarded deletions raises a `TypeError` exactly when the path meets a value that cannot be subscripted by its key (such as `spec: "x"`) or ends at a node that is no mapping. A mapping loses exactly the listed keys, and nothing outside them changes |
| Steps.LemmaDropKeysAbsent | convert_deployment_config.py:64-70 | deleting keys that are all absent leaves the document as it is |
| LibraryFacts.LemmaRemoves | convert_deployment_config.py:64-86 | the result has no `spec.triggers`, `spec.test`, `spec.strategy.resources` or top-level `status` |
| ConvertDeploymentConfig.LemmaFrame | convert_deployment_config.py:15-88 | every lookup clear of the paths the steps may touch reads the same in input and result |
| LibraryFacts.LemmaKeeps | convert_deployment_config.py:15-88 | a lookup that avoids every step's paths, `metadata` for one, is unchanged by the conversion |
| LibraryFacts.LemmaKeepsSpecEntry | convert_deployment_config.py:15-88 | every `spec` entry other than `strategy`, `selector`, `triggers` and `test` is unchanged. This includes `replicas` and all of `template` except the first container's image |
| ConvertDeploymentConfig.Rewrite | convert_deployment_config.py:15-88 | a successful conversion yields a mapping. With a diagnostic that cannot raise, no failure comes from a diagnostic |
| LibraryFacts.LemmaPrepareRaises | convert_deployment_config.py:20-62 | the rewrite steps raise exactly when the input has a `spec` or `spec.strategy` that is present but not a mapping, an unmigratable selector, or a non-container in the image chain, or when a skip is reported on a manifest without a `metadata` mapping |
| LibraryFacts.LemmaCleanupSafe | convert_deployment_config.py:64-86 | once the rewrite steps succeed, the deletion loops cannot raise |
| LibraryFacts.LemmaRaises | convert_deployment_config.py:15-88 | the whole conversion fails if and only if the input condition `LibraryRaises` holds |
| LibraryFacts.LemmaSettledFixed | convert_deployment_config.py:15-88 | a manifest with nothing left to change converts to itself |
| LibraryFacts.LemmaResultSettled | convert_deployment_config.py:15-88 | every converted manifest has nothing left to change, and its `metadata` is the input's |
| LibraryFacts.LemmaIdempotent | convert_deployment_config.py:15-88 | converting twice equals converting once. Because `triggers` is gone, the second run cannot set the image again. The library's own diagnostic also needs a `metadata` mapping for this |
| ConvertDeploymentConfig.Convert | convert_deployment_config.py:15-88 | the conversion as written: whenever it succeeds, it gives what the conversion with a non-raising diagnostic gives |
| ConvertDeploymentConfig.LemmaStrictAgrees | convert_deployment_config.py:49-62 | the diagnostics can only turn a result into a failure, never change it |
| ConvertDeploymentConfig.ConvertReportingSafely | convert_deployment_config.py:49-62 | the conversion whose skip diagnostic cannot raise never fails in a diagnostic |
| LibraryFacts.LemmaSettledRerun | convert_deployment_config.py:61-62 | as written, converting a settled manifest that has a selector but no `metadata` mapping raises in the image step's diagnostic |
| LibraryFacts.LemmaRerunRaises | convert_deployment_config.py:61-62 | as written, converting a converted manifest that has no `metadata` mapping again always raises |
| LibraryFacts.LemmaRerunWitness | convert_deployment_config.py:49-62 | a concrete manifest converts once and then raises on its own output. With the safe diagnostic, the second run is a no-op |
| LibraryFacts.LemmaBareWitness | convert_deployment_config.py:49-50 | a manifest with nothing but its kind makes the library raise in a diagnostic, and converts with the safe one |
| ManifestLoop.DropTrailingNone | python.py:27-29 | the list loses exactly one element, its last, if and only if that element is `None`. Otherwise it is unchanged |
| ManifestLoop.ProcessFile | python.py:27-108 | reading the first document's name for the copy's file name raises exactly when that document is not a mapping, or has a `metadata` that is not one. Otherwise each remaining document's result is what the loop makes of it, in its place. The file fails if and only if the name read or some document fails |
| LoopFacts.LemmaConvertOneKeepsMetadata | python.py:42-108 | every document the loop processes keeps its `metadata` |
| LoopFacts.LemmaProcessFileRerun | python.py:27-108 | processing a processed file again changes nothing, except that an empty document still left at its end is dropped |
| ManifestLoop.ConvertOne | python.py:42-45 | empty documents and documents of another kind pass through unchanged. A non-empty document that is not a mapping or lacks `kind` ends the file. A `DeploymentConfig` is converted inline |
| ManifestLoop.ConvertAll | python.py:42-108 | each document is converted or passed through in its own place, so length and order are kept. The list fails if and only if some document fails, and then with that document's error |
| LoopFacts.LemmaConvertAllFixed | python.py:42-43 | a list every document of which passes through is returned unchanged |
| LoopFacts.LemmaConvertOneSettles | python.py:42-108 | a document the loop has processed passes through a second run unchanged |
| LoopFacts.LemmaConvertAllIdempotent | python.py:42-108 | running the loop over its own output changes nothing |
| ManifestLoop.InlineConvert | python.py:45-108 | the inline conversion never fails in a diagnostic (its skip messages print a name read beforehand), and never fails on the kind test |
| LoopFacts.LemmaInlineRaises | python.py:45-108 | the inline conversion fails if and only if `metadata` is present but not a mapping, `spec` or `spec.strategy` is present but not a mapping, the selector cannot be migrated, or the image chain meets a non-container. An unreadable name fails first |
| LoopFacts.LemmaInlineConverted | python.py:43-49 | a converted document is a mapping whose `kind` is `Deployment`, so the kind test passes it through afterwards |
| LoopFacts.LemmaInlineRelabels | python.py:48-49 | a converted manifest has `kind: Deployment` and `apiVersion: apps/v1` |
| LoopFacts.LemmaTypeStep | python.py:52-55 | the type assignment keeps an absent strategy absent, and otherwise changes only `spec.strategy.type` |
| LoopFacts.LemmaLegacyStep | python.py:78-88 | the two legacy deletions remove exactly `rollingParams` and `activeDeadlineSeconds` from a strategy mapping and change nothing else |
| LoopFacts.LemmaInlineStrategy | python.py:52-88 | in the result, a strategy mapping is the input's with `type: RollingUpdate` and exactly `rollingParams` and `activeDeadlineSeconds` removed. An absent strategy stays absent |
| LoopFacts.LemmaInlineSelector | python.py:57-76 | in the result, a selector mapping is exactly what migration makes of the input's: only `matchLabels`, holding every former sibling entry. An absent selector stays absent |
| LoopFacts.LemmaInlineImage | python.py:90-101 | if the first trigger names image `n` and a first container exists, its image becomes `registry + "/" + n`. Otherwise `spec.template` is exactly the input's |
| LoopFacts.LemmaInlineRemoves | python.py:103-108 | the result has no `spec.triggers` and no `spec.test`. Keys of `spec` literally named `strategy/activeDeadlineSeconds` or `strategy/resources` are gone too |
| LoopFacts.LemmaInlineKeepsResources | python.py:103-108 | `spec.strategy.resources` survives the inline conversion unchanged |
| LoopFacts.LemmaInlineKeepsOutside | python.py:42-108 | everything outside `spec` other than `kind` and `apiVersion` is kept, top-level `status` and `metadata` included |
| LoopFacts.LemmaInlineKeepsSpecEntry | python.py:42-108 | every `spec` entry the steps do not name is unchanged. This includes `replicas` and all of `template` except the first container's image |
| LoopFacts.LemmaInlineFrame | python.py:42-108 | every lookup clear of the paths the inline steps may touch reads the same in input and result |
| ManifestLoop.InlineConvertIntended | python.py:103-108 | with the deletions as evidently meant, the inline conversion still never fails in a diagnostic |
| LoopFacts.LemmaIntendedRemoves | python.py:103-108 | with the deletions as meant, `spec.triggers`, `spec.test`, `spec.strategy.activeDeadlineSeconds` and `spec.strategy.resources` are all gone |
| LoopFacts.LemmaIntendedAgrees | python.py:103-108 | the deletions as meant succeed exactly when the deletions as written do |

## Left out

- File and directory handling is not modelled: listing the input folder, creating the output folders, copying and renaming the input file, and writing the output files. The same goes for `process_file` in convert_deployment_config.py and the stale `deploymentconfigname` it uses for output names. None of it decides what a converted manifest contains.
- YAML parsing and dumping are not modelled. The model starts from the parsed tree, with string keys only. YAML anchors that make two nodes share one Python object are not modelled either, so every in-place write changes only the node at its path.
- `print` diagnostics are not modelled as output. Only whether building the message raises is modelled, as the library's does (`ReportFault`).
- After an uncaught exception, python.py's top-level handler (lines 117-118) has already written output files for earlier documents and mutated the current one in place. The model ends the file's processing with the error instead.
- Dictionary ordering is not modelled. Mappings are Dafny maps, so key order (which `yaml.dump` sorts anyway) is not represented.
- YamlTree.Render: for an image name that is a mapping or a list, Python splices its `repr` into the image string. The model assigns the image as Python does, but with a fixed stand-in text for that `repr`, because mappings here do not keep key order. Scalars other than strings carry the text `str()` gives them as data, so number and timestamp formatting is not computed.

## Findings

| source | as written | input that shows it | evidently intended | confidence | as-written member | corrected member |
|---|---|---|---|---|---|---|
| convert_deployment_config.py:49-62 | a skipped selector or image step reports the skip with `manifest['metadata'].get('name')`, which itself raises when `metadata` is absent or not a mapping, and that exception escapes the conversion function | `{kind: DeploymentConfig}` with nothing else; and the manifest `WebManifest` (selector, first trigger and first container, no `metadata`), which converts once and then raises on its own output | the skip is only reported, and the conversion goes on; converting twice equals converting once | high; not executed | LibraryFacts.LemmaRerunWitness | ConvertDeploymentConfig.ConvertReportingSafely |
| python.py:104 | `del manifest['spec']['strategy/resources']` looks for a key of `spec` whose name contains a slash, so `spec.strategy.resources` and `spec.strategy.activeDeadlineSeconds` are never deleted by this loop | any DeploymentConfig whose `spec.strategy` has a `resources` entry | delete `resources` and `activeDeadlineSeconds` from `spec.strategy`, as the library converter does | medium; not executed | LoopFacts.LemmaInlineKeepsResources | ManifestLoop.InlineConvertIntended |

The first finding is also shown by `LibraryFacts.LemmaBareWitness`.
`LibraryFacts.LemmaIdempotent` proves that the corrected conversion is
idempotent with no condition on `metadata`.

For the second finding, `LoopFacts.LemmaIntendedRemoves` proves the intended
deletions. `LoopFacts.LemmaIntendedAgrees` proves that they succeed exactly
when the written ones do. The list-level functions of `ManifestLoop` keep
the deletions as written, so that the
loop's properties describe python.py as it stands, which keeps
`spec.strategy.resources` and `status`.
