/** The individual rewrite steps that turn a DeploymentConfig manifest into a
    Deployment manifest. Both converters (convert_deployment_config.py and
    the inline loop of python.py) are sequences of these steps; each step is
    its own `try` block, so a missing field skips only that step. */
module DeploymentRewrite {
  import opened Wrappers
  import opened YamlTree
  import opened Steps
  import opened Selector

  const SpecPath: Path := [Key("spec")]
  const StrategyPath: Path := [Key("spec"), Key("strategy")]
  const SelectorPath: Path := [Key("spec"), Key("selector")]
  const MetadataPath: Path := [Key("metadata")]
  const TemplatePath: Path := [Key("spec"), Key("template")]

  /** `spec.triggers[0].imageChangeParams.from.name` */
  const TriggerNamePath: Path :=
    [Key("spec"), Key("triggers"), At(0), Key("imageChangeParams"), Key("from"), Key("name")]

  /** `spec.template.spec.containers[0]` */
  const ContainerPath: Path := [Key("spec"), Key("template"), Key("spec"), Key("containers"), At(0)]

  /** `spec.template.spec.containers[0].image` */
  const ImagePath: Path := [Key("spec"), Key("template"), Key("spec"), Key("containers"), At(0), Key("image")]

  const Deployment: Y := YStr("Deployment")
  const AppsV1: Y := YStr("apps/v1")
  const RollingUpdate: Y := YStr("RollingUpdate")

  /** Strategy keys with no Deployment equivalent, removed right after the
      strategy type is forced. */
  const LegacyStrategyKeys: seq<string> := ["rollingParams", "activeDeadlineSeconds"]

  const RelabelTouched: seq<Path> := [[Key("kind")], [Key("apiVersion")]]

  /** What the strategy step may change: `type` and the legacy keys. */
  const StrategyTouched: seq<Path> := Touch(StrategyPath, ["type"] + LegacyStrategyKeys)

  /** `manifest['kind'] = 'Deployment'; manifest['apiVersion'] = 'apps/v1'`,
      whatever the document held before. */
  function Relabel(doc: map<string, Y>): (y: Y)
    ensures y.YMap? && y.entries.Keys == doc.Keys + {"kind", "apiVersion"}
    ensures Get(y, [Key("kind")]) == Found(Deployment)
    ensures Get(y, [Key("apiVersion")]) == Found(AppsV1)
    ensures Frame(YMap(doc), y, RelabelTouched)
  {
    var d1 := doc["kind" := Deployment];
    var d2 := d1["apiVersion" := AppsV1];
    LemmaEntryFrame(YMap(doc), [], doc, d1, "kind");
    LemmaEntryFrame(YMap(d1), [], d1, d2, "apiVersion");
    assert [] + [Key("kind")] == [Key("kind")];
    assert [] + [Key("apiVersion")] == [Key("apiVersion")];
    assert Put(YMap(doc), [], YMap(d1)) == YMap(d1);
    assert Put(YMap(d1), [], YMap(d2)) == YMap(d2);
    LemmaFrameChain(YMap(doc), YMap(d1), YMap(d2), [[Key("kind")]], [[Key("apiVersion")]]);
    assert [[Key("kind")]] + [[Key("apiVersion")]] == RelabelTouched;
    YMap(d2)
  }

  /** The relabelling keeps every lookup that starts elsewhere. */
  lemma LemmaRelabelKeeps(doc: map<string, Y>, q: Path)
    requires |q| > 0 && q[0] != Key("kind") && q[0] != Key("apiVersion")
    ensures Get(Relabel(doc), q) == Get(YMap(doc), q)
  {
    assert Clear(RelabelTouched, q);
    LemmaFrameKeeps(YMap(doc), Relabel(doc), RelabelTouched, q);
  }

  /** The library's strategy block (convert_deployment_config.py lines
      24-32): force `type`, then drop the legacy keys, all inside one `try`
      that only catches `KeyError`. */
  function StrategyStep(y: Y): (r: Result<Y, Fault>)
    ensures r.Err? <==> Faulty(y, StrategyPath)
    ensures r.Err? ==> r.error == StrategyFault
    ensures Get(y, StrategyPath).Missing? ==> r == Ok(y)
    ensures r.Ok? && Get(y, StrategyPath).Found? ==>
              Get(r.value, StrategyPath)
              == Found(YMap(Get(y, StrategyPath).value.entries["type" := RollingUpdate] - {"rollingParams", "activeDeadlineSeconds"}))
    ensures r.Ok? ==> Frame(y, r.value, StrategyTouched)
  {
    match Assign(y, StrategyPath, "type", RollingUpdate)
    case Skipped => Ok(y)
    case Raised => Err(StrategyFault)
    case Applied(y1) =>
      var r := DropKeys(y1, StrategyPath, LegacyStrategyKeys, StrategyFault);
      assert (set k | k in LegacyStrategyKeys) == {"rollingParams", "activeDeadlineSeconds"};
      assert [StrategyPath + [Key("type")]] + Touch(StrategyPath, LegacyStrategyKeys) == StrategyTouched;
      if r.Ok? then
        LemmaFrameChain(y, y1, r.value, [StrategyPath + [Key("type")]], Touch(StrategyPath, LegacyStrategyKeys));
        r
      else r
  }

  /** The selector migration raises: the selector is there but is not a
      mapping, or `Migrate` raises on it. */
  predicate SelectorFaulty(y: Y) {
    match Get(y, SelectorPath)
    case Found(node) => !node.YMap? || Migrate(node.entries).None?
    case Clash => true
    case Missing => false
  }

  /** The selector block (convert_deployment_config.py lines 35-48,
      python.py lines 58-73) before its handler runs. */
  function SelectorBlock(y: Y): (o: Outcome)
    ensures o.Skipped? <==> Get(y, SelectorPath).Missing?
    ensures o.Raised? <==> SelectorFaulty(y)
    ensures o.Applied? ==>
              Get(y, SelectorPath).Found? && Get(y, SelectorPath).value.YMap? &&
              Get(o.doc, SelectorPath) == Found(YMap(Migrate(Get(y, SelectorPath).value.entries).value))
    ensures o.Applied? ==> Frame(y, o.doc, [SelectorPath])
  {
    match Get(y, SelectorPath)
    case Missing => Skipped
    case Clash => Raised
    case Found(node) =>
      if node.YMap? then
        match Migrate(node.entries)
        case None => Raised
        case Some(sel) =>
          LemmaFoundMapWithin(y, SelectorPath);
          LemmaGetPut(y, SelectorPath, YMap(sel));
          LemmaPutFrame(y, SelectorPath, YMap(sel));
          Applied(Put(y, SelectorPath, YMap(sel)))
      else Raised
  }

  /** The image step does nothing: the trigger chain or the container chain
      ends in a `KeyError` or `IndexError`. */
  predicate ImageSkips(y: Y) {
    match Get(y, TriggerNamePath)
    case Missing => true
    case Clash => false
    case Found(_) => Get(y, ContainerPath).Missing?
  }

  /** The image step raises `TypeError` on the trigger chain or on the
      first container. */
  predicate ImageFaulty(y: Y) {
    match Get(y, TriggerNamePath)
    case Missing => false
    case Clash => true
    case Found(_) => Faulty(y, ContainerPath)
  }

  /** The image block (convert_deployment_config.py lines 53-60, python.py
      lines 91-98) before its handler runs: the first container's image
      becomes `registry + "/" + name`. */
  function ImageBlock(y: Y, registry: string): (o: Outcome)
    ensures o.Skipped? <==> ImageSkips(y)
    ensures o.Raised? <==> ImageFaulty(y)
    ensures o.Applied? ==>
              Get(y, TriggerNamePath).Found? &&
              Get(o.doc, ImagePath) == Found(YStr(registry + "/" + Render(Get(y, TriggerNamePath).value)))
    ensures o.Applied? ==> Frame(y, o.doc, [ImagePath])
  {
    assert ContainerPath + [Key("image")] == ImagePath;
    match Get(y, TriggerNamePath)
    case Missing => Skipped
    case Clash => Raised
    case Found(n) => Assign(y, ContainerPath, "image", YStr(registry + "/" + Render(n)))
  }

  /** `manifest['metadata']` is a mapping, so `.get('name')` on it succeeds. */
  predicate MetadataNamed(y: Y) {
    Get(y, MetadataPath).Found? && Get(y, MetadataPath).value.YMap?
  }

  /** The handler of a step that can be skipped. With `strict` it is the
      library's `print(... manifest['metadata'].get('name') ...)`, which
      itself raises when `metadata` is missing or not a mapping; otherwise
      the skip is silent (python.py prints a name it read earlier). */
  function Handle(o: Outcome, y: Y, f: Fault, strict: bool): Result<Y, Fault> {
    match o
    case Applied(z) => Ok(z)
    case Raised => Err(f)
    case Skipped => if strict && !MetadataNamed(y) then Err(ReportFault) else Ok(y)
  }

  /** The selector step with its handler. */
  function SelectorStep(y: Y, strict: bool): (r: Result<Y, Fault>)
    ensures r.Err? <==> SelectorFaulty(y) || (strict && Get(y, SelectorPath).Missing? && !MetadataNamed(y))
    ensures r.Err? ==> r.error == (if SelectorFaulty(y) then SelectorFault else ReportFault)
    ensures r.Ok? ==> Frame(y, r.value, [SelectorPath])
    ensures r.Ok? && Get(y, SelectorPath).Missing? ==> r.value == y
    ensures r.Ok? && Get(y, SelectorPath).Found? ==>
              Get(y, SelectorPath).value.YMap? &&
              Get(r.value, SelectorPath) == Found(YMap(Migrate(Get(y, SelectorPath).value.entries).value))
  {
    Handle(SelectorBlock(y), y, SelectorFault, strict)
  }

  /** The image step with its handler. */
  function ImageStep(y: Y, registry: string, strict: bool): (r: Result<Y, Fault>)
    ensures r.Err? <==> ImageFaulty(y) || (strict && ImageSkips(y) && !MetadataNamed(y))
    ensures r.Err? ==> r.error == (if ImageFaulty(y) then ImageFault else ReportFault)
    ensures r.Ok? ==> Frame(y, r.value, [ImagePath])
    ensures r.Ok? && ImageSkips(y) ==> r.value == y
    ensures r.Ok? && !ImageSkips(y) ==>
              Get(y, TriggerNamePath).Found? &&
              Get(r.value, ImagePath) == Found(YStr(registry + "/" + Render(Get(y, TriggerNamePath).value)))
  {
    Handle(ImageBlock(y, registry), y, ImageFault, strict)
  }

  /** A strategy that already is a `RollingUpdate` without legacy keys is
      left exactly as it is. */
  lemma LemmaStrategySettled(y: Y)
    requires Get(y, StrategyPath).Missing? || Get(y, StrategyPath).Found?
    requires Get(y, StrategyPath).Found? ==>
               var st := Get(y, StrategyPath).value;
               st.YMap? && "type" in st.entries && st.entries["type"] == RollingUpdate &&
               "rollingParams" !in st.entries && "activeDeadlineSeconds" !in st.entries
    ensures StrategyStep(y) == Ok(y)
  {
    if Get(y, StrategyPath).Found? {
      var m := Get(y, StrategyPath).value.entries;
      assert m["type" := RollingUpdate] == m;
      LemmaFoundMapWithin(y, StrategyPath);
      LemmaPutSelf(y, StrategyPath);
      assert Assign(y, StrategyPath, "type", RollingUpdate) == Applied(y);
      forall i | 0 <= i < |LegacyStrategyKeys|
        ensures Get(y, StrategyPath + [Key(LegacyStrategyKeys[i])]).Missing?
      {
        LemmaGetConcat(y, StrategyPath, [Key(LegacyStrategyKeys[i])]);
      }
      LemmaDropKeysAbsent(y, StrategyPath, LegacyStrategyKeys, StrategyFault);
    }
  }

  /** A selector that migration leaves as it is passes the selector step
      untouched. */
  lemma LemmaSelectorSettled(y: Y, strict: bool)
    requires Get(y, SelectorPath).Found? && Get(y, SelectorPath).value.YMap?
    requires Migrate(Get(y, SelectorPath).value.entries) == Some(Get(y, SelectorPath).value.entries)
    ensures SelectorStep(y, strict) == Ok(y)
  {
    LemmaFoundMapWithin(y, SelectorPath);
    LemmaPutSelf(y, SelectorPath);
    assert SelectorBlock(y) == Applied(y);
  }
}
