/** `convert_deploymentconfig_to_deployment` of convert_deployment_config.py:
    the DeploymentConfig manifest, already parsed, rewritten into a
    Deployment manifest step by step, each step guarded on its own. */
module ConvertDeploymentConfig {
  import opened Wrappers
  import opened YamlTree
  import opened Steps
  import opened Selector
  import opened DeploymentRewrite

  /** Deleted from `spec` (line 65). */
  const SpecCleanupKeys: seq<string> := ["triggers", "test"]
  /** Deleted from `spec.strategy` (line 73). */
  const StrategyCleanupKeys: seq<string> := ["resources"]
  /** Deleted from the manifest itself (line 81). */
  const TopCleanupKeys: seq<string> := ["status"]

  /** What the three deletion loops may change, loop by loop. */
  const SpecCleanupTouched: seq<Path> := Touch(SpecPath, SpecCleanupKeys)
  const StrategyCleanupTouched: seq<Path> := Touch(StrategyPath, StrategyCleanupKeys)
  const TopCleanupTouched: seq<Path> := Touch([], TopCleanupKeys)

  /** Every path the conversion may change; any lookup clear of all of them
      reads the same before and after. */
  const LibraryTouched: seq<Path> :=
    RelabelTouched + StrategyTouched + [SelectorPath] + [ImagePath]
    + SpecCleanupTouched + StrategyCleanupTouched + TopCleanupTouched

  /** The registry host of convert_deployment_config.py line 9. */
  const LibraryRegistry: string := "my-image-registry.mydomain.com:5000"

  /** The rewrite steps of lines 20-62, up to the deletions. `strict` picks
      the handler of the selector and image steps: `true` is the source's
      handler, which reads `manifest['metadata']` to print a diagnostic. */
  function Prepare(doc: map<string, Y>, registry: string, strict: bool): Result<Y, Fault> {
    var y1 :- StrategyStep(Relabel(doc));
    Finish(y1, registry, strict)
  }

  /** The selector and image steps of lines 35-62. */
  function Finish(y1: Y, registry: string, strict: bool): Result<Y, Fault> {
    var y2 :- SelectorStep(y1, strict);
    ImageStep(y2, registry, strict)
  }

  /** The three deletion loops of lines 64-86. */
  function Cleanup(y: Y): Result<Y, Fault> {
    var y4 :- DropKeys(y, SpecPath, SpecCleanupKeys, CleanupFault);
    var y5 :- DropKeys(y4, StrategyPath, StrategyCleanupKeys, CleanupFault);
    DropKeys(y5, [], TopCleanupKeys, CleanupFault)
  }

  /** The conversion with the registry host as a parameter. A diagnostic
      that cannot raise never ends a conversion. */
  function Rewrite(doc: map<string, Y>, registry: string, strict: bool): (r: Result<Y, Fault>)
    ensures r.Ok? ==> r.value.YMap?
    ensures !strict && r.Err? ==> r.error != ReportFault
  {
    var y3 :- Prepare(doc, registry, strict);
    var r :- Cleanup(y3);
    assert r.YMap? by {
      var y4 := DropKeys(y3, SpecPath, SpecCleanupKeys, CleanupFault).value;
      var y5 := DropKeys(y4, StrategyPath, StrategyCleanupKeys, CleanupFault).value;
      LemmaDropKeysRemoves(y5, [], TopCleanupKeys, CleanupFault, 0);
    }
    Ok(r)
  }

  /** `convert_deploymentconfig_to_deployment` as written: its diagnostic
      can only turn a conversion into a failure, never change a result. */
  function Convert(doc: map<string, Y>, registry: string): (r: Result<Y, Fault>)
    ensures r.Ok? ==> r == ConvertReportingSafely(doc, registry)
  {
    LemmaStrictAgrees(doc, registry);
    Rewrite(doc, registry, true)
  }

  /** A handler that did not raise did what the safe one does. */
  lemma LemmaHandleAgrees(o: Outcome, y: Y, f: Fault)
    requires Handle(o, y, f, true).Ok?
    ensures Handle(o, y, f, false) == Handle(o, y, f, true)
  {
  }

  /** When the source's handlers do not raise, the steps do what they do
      with the safe handlers. */
  lemma LemmaStrictPrepare(doc: map<string, Y>, registry: string)
    requires Prepare(doc, registry, true).Ok?
    ensures Prepare(doc, registry, false) == Prepare(doc, registry, true)
  {
    var y1 := StrategyStep(Relabel(doc)).value;
    LemmaHandleAgrees(SelectorBlock(y1), y1, SelectorFault);
    var y2 := SelectorStep(y1, true).value;
    LemmaHandleAgrees(ImageBlock(y2, registry), y2, ImageFault);
  }

  lemma LemmaStrictAgrees(doc: map<string, Y>, registry: string)
    ensures Rewrite(doc, registry, true).Ok? ==> Rewrite(doc, registry, true) == Rewrite(doc, registry, false)
  {
    if Rewrite(doc, registry, true).Ok? {
      LemmaStrictPrepare(doc, registry);
    }
  }

  /** The same conversion with a diagnostic that cannot itself raise. */
  function ConvertReportingSafely(doc: map<string, Y>, registry: string): (r: Result<Y, Fault>)
    ensures r.Err? ==> r.error != ReportFault
  {
    Rewrite(doc, registry, false)
  }

  /** The intermediate documents of a successful conversion. */
  lemma Trace(doc: map<string, Y>, registry: string, strict: bool) returns (y0: Y, y1: Y, y2: Y, y3: Y, y4: Y, y5: Y)
    requires Rewrite(doc, registry, strict).Ok?
    ensures y0 == Relabel(doc)
    ensures StrategyStep(y0) == Ok(y1)
    ensures SelectorStep(y1, strict) == Ok(y2)
    ensures ImageStep(y2, registry, strict) == Ok(y3)
    ensures DropKeys(y3, SpecPath, SpecCleanupKeys, CleanupFault) == Ok(y4)
    ensures DropKeys(y4, StrategyPath, StrategyCleanupKeys, CleanupFault) == Ok(y5)
    ensures DropKeys(y5, [], TopCleanupKeys, CleanupFault) == Rewrite(doc, registry, strict)
  {
    y0 := Relabel(doc);
    y1 := StrategyStep(y0).value;
    y2 := SelectorStep(y1, strict).value;
    y3 := ImageStep(y2, registry, strict).value;
    y4 := DropKeys(y3, SpecPath, SpecCleanupKeys, CleanupFault).value;
    y5 := DropKeys(y4, StrategyPath, StrategyCleanupKeys, CleanupFault).value;
    assert Prepare(doc, registry, strict) == Ok(y3);
  }

  /** Nothing outside the touched paths changes: `metadata`, every `spec`
      entry other than `strategy`, `selector`, `triggers` and `test`, all of
      `spec.template` except `containers[0].image`, and every other
      top-level key read the same as in the input. */
  lemma LemmaFrame(doc: map<string, Y>, registry: string, strict: bool)
    requires Rewrite(doc, registry, strict).Ok?
    ensures Frame(YMap(doc), Rewrite(doc, registry, strict).value, LibraryTouched)
  {
    var y0, y1, y2, y3, y4, y5 := Trace(doc, registry, strict);
    var r := Rewrite(doc, registry, strict).value;
    var d := YMap(doc);
    LemmaFrameChain(d, y0, y1, RelabelTouched, StrategyTouched);
    LemmaFrameChain(d, y1, y2, RelabelTouched + StrategyTouched, [SelectorPath]);
    LemmaFrameChain(d, y2, y3, RelabelTouched + StrategyTouched + [SelectorPath], [ImagePath]);
    var t3 := RelabelTouched + StrategyTouched + [SelectorPath] + [ImagePath];
    LemmaFrameChain(d, y3, y4, t3, SpecCleanupTouched);
    LemmaFrameChain(d, y4, y5, t3 + SpecCleanupTouched, StrategyCleanupTouched);
    LemmaFrameChain(d, y5, r, t3 + SpecCleanupTouched + StrategyCleanupTouched, TopCleanupTouched);
  }
}
