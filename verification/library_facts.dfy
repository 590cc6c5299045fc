/** What a conversion by `convert_deploymentconfig_to_deployment`
    (convert_deployment_config.py lines 15-88) guarantees about its result. */
module LibraryFacts {
  import opened Wrappers
  import opened YamlTree
  import opened Steps
  import opened Selector
  import opened DeploymentRewrite
  import opened ConvertDeploymentConfig

  /** `q` avoids every path a step after the relabelling may change. */
  predicate Untouched(q: Path) {
    && Clear(StrategyTouched, q)
    && Apart(SelectorPath, q)
    && Apart(ImagePath, q)
    && Clear(SpecCleanupTouched, q)
    && Clear(StrategyCleanupTouched, q)
    && Clear(TopCleanupTouched, q)
  }

  /** Six consecutive frames keep a lookup that avoids them all. */
  lemma LemmaCarry(y0: Y, y1: Y, y2: Y, y3: Y, y4: Y, y5: Y, r: Y, q: Path)
    requires Frame(y0, y1, StrategyTouched) && Frame(y1, y2, [SelectorPath]) && Frame(y2, y3, [ImagePath])
    requires Frame(y3, y4, SpecCleanupTouched)
    requires Frame(y4, y5, StrategyCleanupTouched)
    requires Frame(y5, r, TopCleanupTouched)
    requires Untouched(q)
    ensures Get(r, q) == Get(y0, q)
  {
    LemmaFrameKeeps(y0, y1, StrategyTouched, q);
    LemmaKeepOne(y1, y2, SelectorPath, q);
    LemmaKeepOne(y2, y3, ImagePath, q);
    LemmaFrameKeeps(y3, y4, SpecCleanupTouched, q);
    LemmaFrameKeeps(y4, y5, StrategyCleanupTouched, q);
    LemmaFrameKeeps(y5, r, TopCleanupTouched, q);
  }

  /** A lookup that avoids the steps' paths reads the same in the relabelled
      input and in the result. */
  lemma Transport(doc: map<string, Y>, registry: string, strict: bool, q: Path)
    requires Rewrite(doc, registry, strict).Ok? && Untouched(q)
    ensures Get(Rewrite(doc, registry, strict).value, q) == Get(Relabel(doc), q)
  {
    var y0, y1, y2, y3, y4, y5 := Trace(doc, registry, strict);
    LemmaCarry(y0, y1, y2, y3, y4, y5, Rewrite(doc, registry, strict).value, q);
  }

  /** Paths outside `spec` and `status` avoid every step. */
  lemma LemmaOutsideSpec(q: Path)
    requires |q| > 0 && q[0] != Key("spec") && q[0] != Key("status")
    ensures Untouched(q)
  {
  }

  /** A lookup apart from `spec.strategy` is clear of the strategy step and
      of the `resources` deletion. */
  lemma LemmaStrategyAside(q: Path)
    requires Apart(StrategyPath, q)
    ensures Clear(StrategyTouched, q) && Clear(StrategyCleanupTouched, q)
  {
    LemmaTouchApart(StrategyPath, ["type"] + LegacyStrategyKeys, q);
    LemmaTouchApart(StrategyPath, StrategyCleanupKeys, q);
  }

  /** After conversion the manifest is a `Deployment` of `apps/v1`,
      whatever `kind` and `apiVersion` it held. */
  lemma LemmaRelabels(doc: map<string, Y>, registry: string, strict: bool)
    requires Rewrite(doc, registry, strict).Ok?
    ensures Get(Rewrite(doc, registry, strict).value, [Key("kind")]) == Found(Deployment)
    ensures Get(Rewrite(doc, registry, strict).value, [Key("apiVersion")]) == Found(AppsV1)
  {
    LemmaOutsideSpec([Key("kind")]);
    LemmaOutsideSpec([Key("apiVersion")]);
    Transport(doc, registry, strict, [Key("kind")]);
    Transport(doc, registry, strict, [Key("apiVersion")]);
  }

  /** A lookup that neither the relabelling nor any later step touches reads
      the same in the input and in the result. */
  lemma LemmaKeeps(doc: map<string, Y>, registry: string, strict: bool, q: Path)
    requires Rewrite(doc, registry, strict).Ok? && Untouched(q)
    requires Apart([Key("kind")], q) && Apart([Key("apiVersion")], q)
    ensures Get(Rewrite(doc, registry, strict).value, q) == Get(YMap(doc), q)
  {
    assert Clear(RelabelTouched, q);
    LemmaFrameKeeps(YMap(doc), Relabel(doc), RelabelTouched, q);
    Transport(doc, registry, strict, q);
  }

  /** Every entry of `spec` the conversion has no business with —
      `replicas`, all of `template` except the first container's `image`,
      and so on — reads the same in the result as in the input. */
  lemma LemmaKeepsSpecEntry(doc: map<string, Y>, registry: string, strict: bool, q: Path)
    requires Rewrite(doc, registry, strict).Ok?
    requires |q| > 1 && q[0] == Key("spec")
    requires q[1] != Key("strategy") && q[1] != Key("selector") && q[1] != Key("triggers") && q[1] != Key("test")
    requires Apart(ImagePath, q)
    ensures Get(Rewrite(doc, registry, strict).value, q) == Get(YMap(doc), q)
  {
    var y0, y1, y2, y3, y4, y5 := Trace(doc, registry, strict);
    LibrarySpecCarry(YMap(doc), y0, y1, y2, y3, y4, y5, Rewrite(doc, registry, strict).value, q);
  }

  /** Every step keeps a lookup into `spec` that avoids all of them. */
  lemma LibrarySpecCarry(d: Y, y0: Y, y1: Y, y2: Y, y3: Y, y4: Y, y5: Y, r: Y, q: Path)
    requires Frame(d, y0, RelabelTouched) && Frame(y0, y1, StrategyTouched) && Frame(y1, y2, [SelectorPath])
    requires Frame(y2, y3, [ImagePath])
    requires Frame(y3, y4, SpecCleanupTouched) && Frame(y4, y5, StrategyCleanupTouched) && Frame(y5, r, TopCleanupTouched)
    requires |q| > 1 && q[0] == Key("spec")
    requires q[1] != Key("strategy") && q[1] != Key("selector") && q[1] != Key("triggers") && q[1] != Key("test")
    requires Apart(ImagePath, q)
    ensures Get(r, q) == Get(d, q)
  {
    LemmaCarryEarly(d, y0, y1, y2, q);
    LemmaKeepOne(y2, y3, ImagePath, q);
    LemmaCarryLate(y3, y4, y5, r, q);
  }

  /** Nothing but `status` is deleted from the manifest itself. */
  lemma LemmaTopAside(q: Path)
    requires |q| > 0 && q[0] != Key("status")
    ensures Clear(TopCleanupTouched, q)
  {
    assert TopCleanupTouched[0] == [Key("status")];
  }

  /** The relabelling, strategy and selector steps keep a lookup that avoids
      them. */
  lemma LemmaCarryEarly(d: Y, y0: Y, y1: Y, y2: Y, q: Path)
    requires Frame(d, y0, RelabelTouched) && Frame(y0, y1, StrategyTouched) && Frame(y1, y2, [SelectorPath])
    requires |q| > 1 && q[0] == Key("spec") && q[1] != Key("strategy") && q[1] != Key("selector")
    ensures Get(y2, q) == Get(d, q)
  {
    assert Clear(RelabelTouched, q);
    LemmaFrameKeeps(d, y0, RelabelTouched, q);
    LemmaApartSecond(StrategyPath, q);
    LemmaStrategyAside(q);
    LemmaFrameKeeps(y0, y1, StrategyTouched, q);
    LemmaApartSecond(SelectorPath, q);
    LemmaKeepOne(y1, y2, SelectorPath, q);
  }

  /** The three deletion loops keep a lookup into `spec` that avoids them. */
  lemma LemmaCarryLate(y3: Y, y4: Y, y5: Y, r: Y, q: Path)
    requires Frame(y3, y4, SpecCleanupTouched) && Frame(y4, y5, StrategyCleanupTouched) && Frame(y5, r, TopCleanupTouched)
    requires |q| > 1 && q[0] == Key("spec") && q[1] != Key("strategy") && q[1] != Key("triggers") && q[1] != Key("test")
    ensures Get(r, q) == Get(y3, q)
  {
    assert q[..1] == SpecPath;
    LemmaTouchAside(SpecPath, SpecCleanupKeys, q);
    LemmaFrameKeeps(y3, y4, SpecCleanupTouched, q);
    LemmaApartSecond(StrategyPath, q);
    LemmaStrategyAside(q);
    LemmaFrameKeeps(y4, y5, StrategyCleanupTouched, q);
    LemmaTopAside(q);
    LemmaFrameKeeps(y5, r, TopCleanupTouched, q);
  }

  /** The strategy block and the `resources` deletion, with every other
      step shown to leave `spec.strategy` alone. */
  lemma LemmaStrategyThrough(d: Y, y0: Y, y1: Y, y2: Y, y3: Y, y4: Y, y5: Y, r: Y)
    requires Frame(d, y0, RelabelTouched) && StrategyStep(y0) == Ok(y1)
    requires Frame(y1, y2, [SelectorPath]) && Frame(y2, y3, [ImagePath]) && Frame(y3, y4, SpecCleanupTouched)
    requires DropKeys(y4, StrategyPath, StrategyCleanupKeys, CleanupFault) == Ok(y5)
    requires Frame(y5, r, TopCleanupTouched)
    ensures !Faulty(d, StrategyPath)
    ensures Get(d, StrategyPath).Found? ==>
              Get(r, StrategyPath)
              == Found(YMap(Get(d, StrategyPath).value.entries["type" := RollingUpdate]
                            - {"rollingParams", "activeDeadlineSeconds", "resources"}))
    ensures Get(d, StrategyPath).Missing? ==> Get(r, StrategyPath).Missing?
  {
    var q := StrategyPath;
    assert Clear(RelabelTouched, q);
    LemmaFrameKeeps(d, y0, RelabelTouched, q);
    LibraryStrategyCarry(y1, y2, y3, y4, y5, r);
    LemmaResourcesStep(y4, y5);
    if Get(d, q).Found? {
      LemmaStrategyEntries(Get(d, q).value.entries);
    }
  }

  /** The steps between the strategy block and the `resources` deletion, and
      the deletion of `status`, keep `spec.strategy`. */
  lemma LibraryStrategyCarry(y1: Y, y2: Y, y3: Y, y4: Y, y5: Y, r: Y)
    requires Frame(y1, y2, [SelectorPath]) && Frame(y2, y3, [ImagePath]) && Frame(y3, y4, SpecCleanupTouched)
    requires Frame(y5, r, TopCleanupTouched)
    ensures Get(y4, StrategyPath) == Get(y1, StrategyPath)
    ensures Get(r, StrategyPath) == Get(y5, StrategyPath)
  {
    var q := StrategyPath;
    LemmaApartSecond(SelectorPath, q);
    LemmaKeepOne(y1, y2, SelectorPath, q);
    LemmaApartSecond(ImagePath, q);
    LemmaKeepOne(y2, y3, ImagePath, q);
    assert q[..1] == SpecPath;
    LemmaTouchAside(SpecPath, SpecCleanupKeys, q);
    LemmaFrameKeeps(y3, y4, SpecCleanupTouched, q);
    LemmaTopAside(q);
    LemmaFrameKeeps(y5, r, TopCleanupTouched, q);
  }

  /** The `resources` deletion (lines 72-78) on its own. */
  lemma LemmaResourcesStep(y4: Y, y5: Y)
    requires DropKeys(y4, StrategyPath, StrategyCleanupKeys, CleanupFault) == Ok(y5)
    ensures !Get(y4, StrategyPath).Found? ==> y5 == y4
    ensures Get(y4, StrategyPath).Found? ==>
              Get(y5, StrategyPath) == Found(YMap(Get(y4, StrategyPath).value.entries - (set k | k in StrategyCleanupKeys)))
  {
  }

  /** The two deletions from `spec.strategy` together. */
  lemma LemmaStrategyEntries(m: map<string, Y>)
    ensures m["type" := RollingUpdate] - {"rollingParams", "activeDeadlineSeconds"} - (set k | k in StrategyCleanupKeys)
         == m["type" := RollingUpdate] - {"rollingParams", "activeDeadlineSeconds", "resources"}
  {
    assert (set k | k in StrategyCleanupKeys) == {"resources"};
  }

  /** The strategy (convert_deployment_config.py lines 24-32 and 72-78): a
      mapping becomes a `RollingUpdate` without `rollingParams`,
      `activeDeadlineSeconds` or `resources`, every other entry kept; an
      absent one stays absent. */
  lemma LemmaStrategy(doc: map<string, Y>, registry: string, strict: bool)
    requires Rewrite(doc, registry, strict).Ok?
    ensures !Faulty(YMap(doc), StrategyPath)
    ensures Get(YMap(doc), StrategyPath).Found? ==>
              Get(Rewrite(doc, registry, strict).value, StrategyPath)
              == Found(YMap(Get(YMap(doc), StrategyPath).value.entries["type" := RollingUpdate]
                            - {"rollingParams", "activeDeadlineSeconds", "resources"}))
    ensures Get(YMap(doc), StrategyPath).Missing? ==> Get(Rewrite(doc, registry, strict).value, StrategyPath).Missing?
  {
    var y0, y1, y2, y3, y4, y5 := Trace(doc, registry, strict);
    LemmaStrategyThrough(YMap(doc), y0, y1, y2, y3, y4, y5, Rewrite(doc, registry, strict).value);
  }

  /** A manifest without `spec` gets none: no step creates it. */
  lemma LemmaSpecAbsent(doc: map<string, Y>, registry: string, strict: bool)
    requires Rewrite(doc, registry, strict).Ok? && "spec" !in doc
    ensures Get(Rewrite(doc, registry, strict).value, SpecPath).Missing?
  {
    var y0, y1, y2, y3, y4, y5 := Trace(doc, registry, strict);
    var r := Rewrite(doc, registry, strict).value;
    assert Get(y0, SpecPath).Missing?;
    LemmaGetFailsBelow(y0, SpecPath, [Key("strategy")]);
    assert SpecPath + [Key("strategy")] == StrategyPath;
    assert y1 == y0;
    LemmaGetFailsBelow(y1, SpecPath, [Key("selector")]);
    assert SpecPath + [Key("selector")] == SelectorPath;
    assert y2 == y1;
    LemmaGetFailsBelow(y2, SpecPath, TriggerNamePath[1..]);
    assert SpecPath + TriggerNamePath[1..] == TriggerNamePath;
    assert ImageSkips(y2);
    assert y3 == y2;
    assert y4 == y3;
    assert y5 == y4;
    LemmaTopAside(SpecPath);
    LemmaFrameKeeps(y5, r, TopCleanupTouched, SpecPath);
  }

  /** The selector (convert_deployment_config.py lines 35-48): a mapping is
      replaced by exactly what `Migrate` makes of it — a selector whose only
      key is `matchLabels`, holding the former sibling entries over the
      labels it had — and an absent one stays absent. */
  lemma LemmaSelector(doc: map<string, Y>, registry: string, strict: bool)
    requires Rewrite(doc, registry, strict).Ok?
    ensures !SelectorFaulty(YMap(doc))
    ensures Get(YMap(doc), SelectorPath).Missing? ==> Get(Rewrite(doc, registry, strict).value, SelectorPath).Missing?
    ensures Get(YMap(doc), SelectorPath).Found? ==>
              var sel := Get(YMap(doc), SelectorPath).value.entries;
              && Migrate(sel).Some?
              && Get(Rewrite(doc, registry, strict).value, SelectorPath) == Found(YMap(Migrate(sel).value))
              && Migrate(sel).value.Keys == {MatchLabels}
              && ((MatchLabels in sel ==> sel[MatchLabels].YMap?) ==>
                    Migrate(sel).value[MatchLabels].YMap? && HoldsLabels(sel, Migrate(sel).value[MatchLabels].entries))
  {
    var y0, y1, y2, y3, y4, y5 := Trace(doc, registry, strict);
    var r := Rewrite(doc, registry, strict).value;
    LibrarySelectorCarry(YMap(doc), y0, y1, y2, y3, y4, y5, r);
    LemmaSelectorThrough(YMap(doc), y1, y2, r, strict);
  }

  /** Every step but the selector step keeps the selector. */
  lemma LibrarySelectorCarry(d: Y, y0: Y, y1: Y, y2: Y, y3: Y, y4: Y, y5: Y, r: Y)
    requires Frame(d, y0, RelabelTouched) && Frame(y0, y1, StrategyTouched) && Frame(y2, y3, [ImagePath])
    requires Frame(y3, y4, SpecCleanupTouched) && Frame(y4, y5, StrategyCleanupTouched) && Frame(y5, r, TopCleanupTouched)
    ensures Get(y1, SelectorPath) == Get(d, SelectorPath)
    ensures Get(r, SelectorPath) == Get(y2, SelectorPath)
  {
    var q := SelectorPath;
    assert Clear(RelabelTouched, q);
    LemmaFrameKeeps(d, y0, RelabelTouched, q);
    LemmaApartSecond(StrategyPath, q);
    LemmaStrategyAside(q);
    LemmaFrameKeeps(y0, y1, StrategyTouched, q);
    LemmaApartSecond(ImagePath, q);
    LemmaKeepOne(y2, y3, ImagePath, q);
    LemmaCarryLate(y3, y4, y5, r, q);
  }

  /** The selector step read off the selectors before and after. */
  lemma LemmaSelectorThrough(d: Y, y1: Y, y2: Y, r: Y, strict: bool)
    requires Get(y1, SelectorPath) == Get(d, SelectorPath)
    requires SelectorStep(y1, strict) == Ok(y2)
    requires Get(r, SelectorPath) == Get(y2, SelectorPath)
    ensures !SelectorFaulty(d)
    ensures Get(d, SelectorPath).Missing? ==> Get(r, SelectorPath).Missing?
    ensures Get(d, SelectorPath).Found? ==>
              var sel := Get(d, SelectorPath).value.entries;
              && Migrate(sel).Some?
              && Get(r, SelectorPath) == Found(YMap(Migrate(sel).value))
              && Migrate(sel).value.Keys == {MatchLabels}
              && ((MatchLabels in sel ==> sel[MatchLabels].YMap?) ==>
                    Migrate(sel).value[MatchLabels].YMap? && HoldsLabels(sel, Migrate(sel).value[MatchLabels].entries))
  {
  }

  /** The image (convert_deployment_config.py lines 53-62): when the first
      trigger names an image and there is a first container, that
      container's `image` becomes `registry/name`, read before the triggers
      are deleted; otherwise `spec.template` is left exactly as it was. */
  lemma LemmaImage(doc: map<string, Y>, registry: string, strict: bool)
    requires Rewrite(doc, registry, strict).Ok?
    ensures !ImageFaulty(YMap(doc))
    ensures !ImageSkips(YMap(doc)) ==>
              Get(Rewrite(doc, registry, strict).value, ImagePath)
              == Found(YStr(registry + "/" + Render(Get(YMap(doc), TriggerNamePath).value)))
    ensures ImageSkips(YMap(doc)) ==>
              Get(Rewrite(doc, registry, strict).value, TemplatePath) == Get(YMap(doc), TemplatePath)
  {
    var y0, y1, y2, y3, y4, y5 := Trace(doc, registry, strict);
    var r := Rewrite(doc, registry, strict).value;
    LibraryImageCarry(YMap(doc), y0, y1, y2, y3, y4, y5, r);
    LemmaImageThrough(YMap(doc), y2, y3, r, registry, strict);
  }

  /** Every step but the image step keeps what the image step reads and
      writes. */
  lemma LibraryImageCarry(d: Y, y0: Y, y1: Y, y2: Y, y3: Y, y4: Y, y5: Y, r: Y)
    requires Frame(d, y0, RelabelTouched) && Frame(y0, y1, StrategyTouched) && Frame(y1, y2, [SelectorPath])
    requires Frame(y3, y4, SpecCleanupTouched) && Frame(y4, y5, StrategyCleanupTouched) && Frame(y5, r, TopCleanupTouched)
    ensures Get(y2, TriggerNamePath) == Get(d, TriggerNamePath)
    ensures Get(y2, ContainerPath) == Get(d, ContainerPath)
    ensures Get(y2, TemplatePath) == Get(d, TemplatePath)
    ensures Get(r, ImagePath) == Get(y3, ImagePath) && Get(r, TemplatePath) == Get(y3, TemplatePath)
  {
    LemmaCarryEarly(d, y0, y1, y2, TriggerNamePath);
    LemmaCarryEarly(d, y0, y1, y2, ContainerPath);
    LemmaCarryEarly(d, y0, y1, y2, TemplatePath);
    LemmaCarryLate(y3, y4, y5, r, ImagePath);
    LemmaCarryLate(y3, y4, y5, r, TemplatePath);
  }

  /** The image step read off the lookups before and after. */
  lemma LemmaImageThrough(d: Y, y2: Y, y3: Y, r: Y, registry: string, strict: bool)
    requires Get(y2, TriggerNamePath) == Get(d, TriggerNamePath)
    requires Get(y2, ContainerPath) == Get(d, ContainerPath)
    requires Get(y2, TemplatePath) == Get(d, TemplatePath)
    requires ImageStep(y2, registry, strict) == Ok(y3)
    requires Get(r, ImagePath) == Get(y3, ImagePath) && Get(r, TemplatePath) == Get(y3, TemplatePath)
    ensures !ImageFaulty(d)
    ensures !ImageSkips(d) ==>
              Get(r, ImagePath) == Found(YStr(registry + "/" + Render(Get(d, TriggerNamePath).value)))
    ensures ImageSkips(d) ==> Get(r, TemplatePath) == Get(d, TemplatePath)
  {
    assert ImageSkips(y2) == ImageSkips(d) && ImageFaulty(y2) == ImageFaulty(d);
  }

  /** `spec.triggers`, `spec.test`, `spec.strategy.resources` and `status`
      are gone from the result (convert_deployment_config.py lines 64-86). */
  lemma LemmaRemoves(doc: map<string, Y>, registry: string, strict: bool)
    requires Rewrite(doc, registry, strict).Ok?
    ensures Get(Rewrite(doc, registry, strict).value, [Key("spec"), Key("triggers")]).Missing?
    ensures Get(Rewrite(doc, registry, strict).value, [Key("spec"), Key("test")]).Missing?
    ensures Get(Rewrite(doc, registry, strict).value, [Key("spec"), Key("strategy"), Key("resources")]).Missing?
    ensures Get(Rewrite(doc, registry, strict).value, [Key("status")]).Missing?
  {
    var y0, y1, y2, y3, y4, y5 := Trace(doc, registry, strict);
    var r := Rewrite(doc, registry, strict).value;
    var triggers := [Key("spec"), Key("triggers")];
    var test := [Key("spec"), Key("test")];
    var resources := [Key("spec"), Key("strategy"), Key("resources")];
    LemmaDropKeysRemoves(y3, SpecPath, SpecCleanupKeys, CleanupFault, 0);
    LemmaDropKeysRemoves(y3, SpecPath, SpecCleanupKeys, CleanupFault, 1);
    assert SpecPath + [Key(SpecCleanupKeys[0])] == triggers;
    assert SpecPath + [Key(SpecCleanupKeys[1])] == test;
    LemmaApartSecond(StrategyPath, triggers);
    LemmaApartSecond(StrategyPath, test);
    LemmaStrategyAside(triggers);
    LemmaStrategyAside(test);
    LemmaFrameKeeps(y4, y5, StrategyCleanupTouched, triggers);
    LemmaFrameKeeps(y4, y5, StrategyCleanupTouched, test);
    LemmaDropKeysRemoves(y4, StrategyPath, StrategyCleanupKeys, CleanupFault, 0);
    assert StrategyPath + [Key(StrategyCleanupKeys[0])] == resources;
    LemmaTopAside(triggers);
    LemmaTopAside(test);
    LemmaTopAside(resources);
    LemmaFrameKeeps(y5, r, TopCleanupTouched, triggers);
    LemmaFrameKeeps(y5, r, TopCleanupTouched, test);
    LemmaFrameKeeps(y5, r, TopCleanupTouched, resources);
    LemmaDropKeysRemoves(y5, [], TopCleanupKeys, CleanupFault, 0);
    assert [] + [Key(TopCleanupKeys[0])] == [Key("status")];
  }

  /** When the conversion raises, read off the input manifest: the strategy
      is there but is not a mapping; the selector is there but cannot be
      migrated; the image chain meets a non-container; or the source's
      diagnostic runs on a manifest whose `metadata` is no mapping. */
  predicate LibraryRaises(doc: map<string, Y>, strict: bool) {
    var d := YMap(doc);
    || Faulty(d, StrategyPath)
    || SelectorFaulty(d)
    || ImageFaulty(d)
    || (strict && !MetadataNamed(d) && (Get(d, SelectorPath).Missing? || ImageSkips(d)))
  }

  /** The relabelling leaves every lookup the later steps test alone. */
  lemma LemmaRelabelKeepsTests(doc: map<string, Y>)
    ensures Get(Relabel(doc), StrategyPath) == Get(YMap(doc), StrategyPath)
    ensures Get(Relabel(doc), SelectorPath) == Get(YMap(doc), SelectorPath)
    ensures Get(Relabel(doc), TriggerNamePath) == Get(YMap(doc), TriggerNamePath)
    ensures Get(Relabel(doc), ContainerPath) == Get(YMap(doc), ContainerPath)
    ensures Get(Relabel(doc), MetadataPath) == Get(YMap(doc), MetadataPath)
  {
    LemmaRelabelKeeps(doc, StrategyPath);
    LemmaRelabelKeeps(doc, SelectorPath);
    LemmaRelabelKeeps(doc, TriggerNamePath);
    LemmaRelabelKeeps(doc, ContainerPath);
    LemmaRelabelKeeps(doc, MetadataPath);
  }

  /** The strategy step leaves what the selector and image steps test. */
  lemma LemmaStrategyKeepsTests(y0: Y, y1: Y)
    requires Frame(y0, y1, StrategyTouched)
    ensures Get(y1, SelectorPath) == Get(y0, SelectorPath)
    ensures Get(y1, TriggerNamePath) == Get(y0, TriggerNamePath)
    ensures Get(y1, ContainerPath) == Get(y0, ContainerPath)
    ensures Get(y1, MetadataPath) == Get(y0, MetadataPath)
  {
    LemmaApartSecond(StrategyPath, SelectorPath);
    LemmaStrategyAside(SelectorPath);
    LemmaFrameKeeps(y0, y1, StrategyTouched, SelectorPath);
    LemmaApartSecond(StrategyPath, TriggerNamePath);
    LemmaStrategyAside(TriggerNamePath);
    LemmaFrameKeeps(y0, y1, StrategyTouched, TriggerNamePath);
    LemmaApartSecond(StrategyPath, ContainerPath);
    LemmaStrategyAside(ContainerPath);
    LemmaFrameKeeps(y0, y1, StrategyTouched, ContainerPath);
    LemmaStrategyAside(MetadataPath);
    LemmaFrameKeeps(y0, y1, StrategyTouched, MetadataPath);
  }

  /** The selector step leaves what the image step tests. */
  lemma LemmaSelectorKeepsTests(y1: Y, y2: Y)
    requires Frame(y1, y2, [SelectorPath])
    ensures Get(y2, TriggerNamePath) == Get(y1, TriggerNamePath)
    ensures Get(y2, ContainerPath) == Get(y1, ContainerPath)
    ensures Get(y2, MetadataPath) == Get(y1, MetadataPath)
  {
    LemmaApartSecond(SelectorPath, TriggerNamePath);
    LemmaKeepOne(y1, y2, SelectorPath, TriggerNamePath);
    LemmaApartSecond(SelectorPath, ContainerPath);
    LemmaKeepOne(y1, y2, SelectorPath, ContainerPath);
    LemmaKeepOne(y1, y2, SelectorPath, MetadataPath);
  }

  /** The tests of the selector and image steps only read their paths. */
  lemma LemmaSameTests(y: Y, y': Y)
    requires Get(y', SelectorPath) == Get(y, SelectorPath)
    requires Get(y', TriggerNamePath) == Get(y, TriggerNamePath)
    requires Get(y', ContainerPath) == Get(y, ContainerPath)
    requires Get(y', MetadataPath) == Get(y, MetadataPath)
    ensures SelectorFaulty(y') == SelectorFaulty(y)
    ensures ImageFaulty(y') == ImageFaulty(y) && ImageSkips(y') == ImageSkips(y)
    ensures MetadataNamed(y') == MetadataNamed(y)
  {
  }

  /** The selector and image steps raise exactly when the selector cannot
      be migrated, the image chain meets a non-container, or the source's
      diagnostic reports a skip on a manifest without a `metadata` mapping. */
  lemma LemmaFinishRaises(y1: Y, registry: string, strict: bool)
    ensures Finish(y1, registry, strict).Err? <==>
              || SelectorFaulty(y1) || ImageFaulty(y1)
              || (strict && !MetadataNamed(y1) && (Get(y1, SelectorPath).Missing? || ImageSkips(y1)))
  {
    if SelectorStep(y1, strict).Ok? {
      var y2 := SelectorStep(y1, strict).value;
      LemmaSelectorKeepsTests(y1, y2);
      assert ImageFaulty(y2) == ImageFaulty(y1) && ImageSkips(y2) == ImageSkips(y1) && MetadataNamed(y2) == MetadataNamed(y1);
    }
  }

  /** The rewrite steps raise exactly when `LibraryRaises` says so. */
  lemma LemmaPrepareRaises(doc: map<string, Y>, registry: string, strict: bool)
    ensures Prepare(doc, registry, strict).Err? <==> LibraryRaises(doc, strict)
  {
    var d := YMap(doc);
    var y0 := Relabel(doc);
    LemmaRelabelKeepsTests(doc);
    LemmaSameTests(d, y0);
    if StrategyStep(y0).Ok? {
      var y1 := StrategyStep(y0).value;
      LemmaStrategyKeepsTests(y0, y1);
      LemmaSameTests(d, y1);
      LemmaFinishRaises(y1, registry, strict);
    }
  }

  /** A spec that is no mapping would make `spec.strategy` a `TypeError`. */
  lemma LemmaSpecShape(y: Y)
    requires y.YMap? && !Faulty(y, StrategyPath)
    ensures !Faulty(y, SpecPath)
  {
    LemmaGetConcat(y, SpecPath, [Key("strategy")]);
    assert SpecPath + [Key("strategy")] == StrategyPath;
  }

  /** A mapping stays a mapping under a change that keeps some top-level
      lookup: that lookup would be a `TypeError` on anything else. */
  lemma LemmaStaysMap(y: Y, y': Y, t: seq<Path>, k: string)
    requires y.YMap? && Frame(y, y', t) && Clear(t, [Key(k)])
    ensures y'.YMap?
  {
    LemmaFrameKeeps(y, y', t, [Key(k)]);
    assert Get(y', [Key(k)]) == Sub(y', Key(k));
  }

  /** The deletions cannot raise on a mapping whose `spec.strategy` is
      absent or a mapping. */
  lemma LemmaCleanupOk(y3: Y)
    requires y3.YMap? && !Faulty(y3, StrategyPath)
    ensures Cleanup(y3).Ok?
  {
    LemmaSpecShape(y3);
    var y4 := DropKeys(y3, SpecPath, SpecCleanupKeys, CleanupFault).value;
    assert StrategyPath[..1] == SpecPath;
    LemmaTouchAside(SpecPath, SpecCleanupKeys, StrategyPath);
    LemmaFrameKeeps(y3, y4, SpecCleanupTouched, StrategyPath);
    var y5 := DropKeys(y4, StrategyPath, StrategyCleanupKeys, CleanupFault).value;
    LemmaOutsideSpec([Key("kind")]);
    LemmaStaysMap(y3, y4, SpecCleanupTouched, "kind");
    LemmaStaysMap(y4, y5, StrategyCleanupTouched, "kind");
  }

  /** After the strategy step, the selector and image steps keep the root a
      mapping and `spec.strategy` absent or a mapping. */
  lemma LemmaPrepareShape(y0: Y, y1: Y, y2: Y, y3: Y)
    requires y0.YMap? && StrategyStep(y0) == Ok(y1)
    requires Frame(y1, y2, [SelectorPath]) && Frame(y2, y3, [ImagePath])
    ensures y3.YMap? && !Faulty(y3, StrategyPath)
  {
    LemmaOutsideSpec([Key("kind")]);
    LemmaStaysMap(y0, y1, StrategyTouched, "kind");
    assert Apart([SelectorPath][0], [Key("kind")]) && Apart([ImagePath][0], [Key("kind")]);
    LemmaStaysMap(y1, y2, [SelectorPath], "kind");
    LemmaStaysMap(y2, y3, [ImagePath], "kind");
    LemmaApartSecond(SelectorPath, StrategyPath);
    LemmaApartSecond(ImagePath, StrategyPath);
    assert Apart([SelectorPath][0], StrategyPath) && Apart([ImagePath][0], StrategyPath);
    LemmaKeepOne(y1, y2, SelectorPath, StrategyPath);
    LemmaKeepOne(y2, y3, ImagePath, StrategyPath);
  }

  /** Once the rewrite steps succeed, the deletions cannot raise. */
  lemma LemmaCleanupSafe(doc: map<string, Y>, registry: string, strict: bool)
    requires Prepare(doc, registry, strict).Ok?
    ensures Cleanup(Prepare(doc, registry, strict).value).Ok?
  {
    var y0 := Relabel(doc);
    var y1 := StrategyStep(y0).value;
    var y2 := SelectorStep(y1, strict).value;
    var y3 := Prepare(doc, registry, strict).value;
    LemmaPrepareShape(y0, y1, y2, y3);
    LemmaCleanupOk(y3);
  }

  /** The conversion raises exactly when `LibraryRaises` says so. */
  lemma LemmaRaises(doc: map<string, Y>, registry: string, strict: bool)
    ensures Rewrite(doc, registry, strict).Err? <==> LibraryRaises(doc, strict)
  {
    LemmaPrepareRaises(doc, registry, strict);
    if Prepare(doc, registry, strict).Ok? {
      LemmaCleanupSafe(doc, registry, strict);
    }
  }

  /** A manifest the conversion has nothing left to do to: already a
      `Deployment` of `apps/v1`, strategy already a bare `RollingUpdate`,
      selector already migrated, nothing left to delete; and, for the
      source's handler, a `metadata` mapping to report skips with. */
  predicate Settled(y: Y, strict: bool) {
    && y.YMap?
    && Get(y, [Key("kind")]) == Found(Deployment)
    && Get(y, [Key("apiVersion")]) == Found(AppsV1)
    && (match Get(y, StrategyPath)
        case Missing => true
        case Clash => false
        case Found(st) =>
          st.YMap? && "type" in st.entries && st.entries["type"] == RollingUpdate &&
          "rollingParams" !in st.entries && "activeDeadlineSeconds" !in st.entries)
    && (match Get(y, SelectorPath)
        case Missing => true
        case Clash => false
        case Found(sel) => sel.YMap? && Migrate(sel.entries) == Some(sel.entries))
    && Get(y, [Key("spec"), Key("triggers")]).Missing?
    && Get(y, [Key("spec"), Key("test")]).Missing?
    && Get(y, [Key("spec"), Key("strategy"), Key("resources")]).Missing?
    && Get(y, [Key("status")]).Missing?
    && (strict ==> MetadataNamed(y))
  }

  /** Relabelling a manifest that already carries the labels changes
      nothing. */
  lemma LemmaRelabelFixed(y: Y)
    requires y.YMap? && Get(y, [Key("kind")]) == Found(Deployment) && Get(y, [Key("apiVersion")]) == Found(AppsV1)
    ensures Relabel(y.entries) == y
  {
    assert y.entries["kind" := Deployment]["apiVersion" := AppsV1] == y.entries;
  }

  /** With the trigger list gone the image step has nothing to read. */
  lemma LemmaNoTriggers(y: Y)
    requires Get(y, [Key("spec"), Key("triggers")]).Missing?
    ensures ImageSkips(y) && !ImageFaulty(y)
  {
    LemmaGetFailsBelow(y, [Key("spec"), Key("triggers")], TriggerNamePath[2..]);
    assert [Key("spec"), Key("triggers")] + TriggerNamePath[2..] == TriggerNamePath;
  }

  /** The deletion loops find nothing to delete in a settled manifest. */
  lemma LemmaCleanupFixed(y: Y, strict: bool)
    requires Settled(y, strict)
    ensures Cleanup(y) == Ok(y)
  {
    assert SpecPath + [Key(SpecCleanupKeys[0])] == [Key("spec"), Key("triggers")];
    assert SpecPath + [Key(SpecCleanupKeys[1])] == [Key("spec"), Key("test")];
    LemmaDropKeysAbsent(y, SpecPath, SpecCleanupKeys, CleanupFault);
    assert StrategyPath + [Key(StrategyCleanupKeys[0])] == [Key("spec"), Key("strategy"), Key("resources")];
    LemmaDropKeysAbsent(y, StrategyPath, StrategyCleanupKeys, CleanupFault);
    assert [] + [Key(TopCleanupKeys[0])] == [Key("status")];
    LemmaDropKeysAbsent(y, [], TopCleanupKeys, CleanupFault);
  }

  /** A settled manifest converts to itself. */
  lemma LemmaSettledFixed(y: Y, registry: string, strict: bool)
    requires Settled(y, strict)
    ensures Rewrite(y.entries, registry, strict) == Ok(y)
  {
    LemmaRelabelFixed(y);
    LemmaStrategySettled(y);
    if Get(y, SelectorPath).Found? {
      LemmaSelectorSettled(y, strict);
    }
    LemmaNoTriggers(y);
    assert Prepare(y.entries, registry, strict) == Ok(y);
    LemmaCleanupFixed(y, strict);
  }

  /** Re-running the source's conversion on a settled manifest without a
      `metadata` mapping raises in the image step's diagnostic. */
  lemma LemmaSettledRerun(y: Y, registry: string)
    requires Settled(y, false) && !MetadataNamed(y) && Get(y, SelectorPath).Found?
    ensures Rewrite(y.entries, registry, true) == Err(ReportFault)
  {
    LemmaRelabelFixed(y);
    LemmaStrategySettled(y);
    LemmaSelectorSettled(y, true);
    LemmaNoTriggers(y);
  }

  /** A converted manifest is settled, and its `metadata` is the input's. */
  lemma LemmaResultSettled(doc: map<string, Y>, registry: string, strict: bool)
    requires Rewrite(doc, registry, strict).Ok?
    ensures Settled(Rewrite(doc, registry, strict).value, false)
    ensures Get(Rewrite(doc, registry, strict).value, MetadataPath) == Get(YMap(doc), MetadataPath)
  {
    var r := Rewrite(doc, registry, strict).value;
    LemmaRelabels(doc, registry, strict);
    LemmaStrategy(doc, registry, strict);
    LemmaSelector(doc, registry, strict);
    if Get(YMap(doc), SelectorPath).Found? {
      LemmaMigrateIdempotent(Get(YMap(doc), SelectorPath).value.entries);
    }
    LemmaRemoves(doc, registry, strict);
    LemmaOutsideSpec(MetadataPath);
    LemmaKeeps(doc, registry, strict, MetadataPath);
  }

  /** Converting twice gives the same manifest as converting once
      (convert_deployment_config.py lines 15-88): the second run finds
      nothing to change, and in particular cannot set the image again
      because the triggers are gone. The source's handler additionally needs
      a `metadata` mapping, since the second run's image step is always
      skipped. */
  lemma LemmaIdempotent(doc: map<string, Y>, registry: string, strict: bool)
    requires Rewrite(doc, registry, strict).Ok?
    requires strict ==> MetadataNamed(YMap(doc))
    ensures Rewrite(Rewrite(doc, registry, strict).value.entries, registry, strict) == Rewrite(doc, registry, strict)
  {
    LemmaResultSettled(doc, registry, strict);
    LemmaSettledFixed(Rewrite(doc, registry, strict).value, registry, strict);
  }

  /** As written, converting a converted manifest that has no `metadata`
      mapping always raises: the image step is skipped, and the skip's
      diagnostic reads `manifest['metadata']`. */
  lemma LemmaRerunRaises(doc: map<string, Y>, registry: string)
    requires Convert(doc, registry).Ok? && !MetadataNamed(YMap(doc))
    ensures Convert(Convert(doc, registry).value.entries, registry) == Err(ReportFault)
  {
    LemmaResultSettled(doc, registry, true);
    LemmaRaises(doc, registry, true);
    LemmaSelector(doc, registry, true);
    LemmaSettledRerun(Convert(doc, registry).value, registry);
  }

  /** A DeploymentConfig with no `metadata` whose selector, first trigger
      and first container are all in place. */
  const WebManifest: map<string, Y> := map[
    "kind" := YStr("DeploymentConfig"),
    "spec" := YMap(map[
      "selector" := YMap(map["app" := YStr("web")]),
      "triggers" := YSeq([YMap(map["imageChangeParams" := YMap(map["from" := YMap(map["name" := YStr("web:1")])])])]),
      "template" := YMap(map["spec" := YMap(map["containers" := YSeq([YMap(map["name" := YStr("web")])])])])])]

  /** What the strategy and selector steps read in `WebManifest`. */
  lemma LemmaWebSpec()
    ensures Get(YMap(WebManifest), MetadataPath) == Missing
    ensures Get(YMap(WebManifest), StrategyPath) == Missing
    ensures Get(YMap(WebManifest), SelectorPath) == Found(YMap(map["app" := YStr("web")]))
  {
    var d := YMap(WebManifest);
    var spec := WebManifest["spec"];
    assert "metadata" !in WebManifest;
    assert Get(d, StrategyPath) == Get(spec, [Key("strategy")]);
    assert Get(d, SelectorPath) == Get(spec, [Key("selector")]);
  }

  /** What the image step reads in `WebManifest`. */
  lemma LemmaWebImage()
    ensures Get(YMap(WebManifest), TriggerNamePath) == Found(YStr("web:1"))
    ensures Get(YMap(WebManifest), ContainerPath) == Found(YMap(map["name" := YStr("web")]))
  {
    var d := YMap(WebManifest);
    var spec := WebManifest["spec"];
    assert Get(d, TriggerNamePath) == Get(spec.entries["triggers"], TriggerNamePath[2..]);
    assert Get(d, ContainerPath) == Get(spec.entries["template"], ContainerPath[2..]);
  }

  /** Nothing in `WebManifest` makes the source raise on a first run. */
  lemma LemmaWebManifest()
    ensures !LibraryRaises(WebManifest, true) && !MetadataNamed(YMap(WebManifest))
  {
    LemmaWebSpec();
    LemmaWebImage();
    assert MatchLabels !in map["app" := YStr("web")];
  }

  /** The source converts `WebManifest` once, then raises on its own
      output; with a diagnostic that cannot raise, the second run is a
      no-op. */
  lemma LemmaRerunWitness(registry: string)
    ensures Convert(WebManifest, registry).Ok?
    ensures Convert(Convert(WebManifest, registry).value.entries, registry) == Err(ReportFault)
    ensures ConvertReportingSafely(ConvertReportingSafely(WebManifest, registry).value.entries, registry)
            == ConvertReportingSafely(WebManifest, registry)
  {
    LemmaWebManifest();
    LemmaRaises(WebManifest, registry, true);
    LemmaRerunRaises(WebManifest, registry);
    LemmaIdempotent(WebManifest, registry, false);
  }

  /** A DeploymentConfig with nothing but its kind. */
  const BareManifest: map<string, Y> := map["kind" := YStr("DeploymentConfig")]

  /** The source raises on `BareManifest` in the selector step's
      diagnostic; with a diagnostic that cannot raise it converts. */
  lemma LemmaBareWitness(registry: string)
    ensures Convert(BareManifest, registry) == Err(ReportFault)
    ensures ConvertReportingSafely(BareManifest, registry).Ok?
  {
    var y0 := Relabel(BareManifest);
    assert y0 == YMap(map["kind" := Deployment, "apiVersion" := AppsV1]);
    assert Get(y0, StrategyPath) == Missing;
    assert Get(y0, SelectorPath) == Missing;
    assert Get(y0, MetadataPath) == Missing;
    assert StrategyStep(y0) == Ok(y0);
    assert SelectorStep(y0, true) == Err(ReportFault);
    assert Get(YMap(BareManifest), StrategyPath) == Missing;
    assert Get(YMap(BareManifest), SelectorPath) == Missing;
    assert Get(YMap(BareManifest), TriggerNamePath) == Missing;
    LemmaRaises(BareManifest, registry, false);
  }
}
