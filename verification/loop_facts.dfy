/** What the inline conversion of python.py (lines 42-108) guarantees about
    each converted manifest, and about the whole list of documents. */
module LoopFacts {
  import opened Wrappers
  import opened YamlTree
  import opened Steps
  import opened Selector
  import opened DeploymentRewrite
  import opened LibraryFacts
  import opened ManifestLoop

  /** The strategy type assignment (lines 52-55): a skip keeps the document,
      an assignment changes `spec.strategy.type` only. */
  lemma LemmaTypeStep(y0: Y, y1: Y)
    requires Settle(Assign(y0, StrategyPath, "type", RollingUpdate), y0, StrategyFault) == Ok(y1)
    ensures !Faulty(y0, StrategyPath) && !Faulty(y1, StrategyPath)
    ensures Frame(y0, y1, [TypePath])
    ensures Get(y0, StrategyPath).Missing? ==> y1 == y0
    ensures Get(y0, StrategyPath).Found? ==>
              Get(y1, StrategyPath) == Found(YMap(Get(y0, StrategyPath).value.entries["type" := RollingUpdate]))
  {
  }

  /** The intermediate documents of a successful inline conversion. */
  lemma InlineTrace(doc: map<string, Y>, registry: string) returns (y0: Y, y1: Y, y2: Y, y3: Y, y4: Y)
    requires InlineConvert(doc, registry).Ok?
    ensures !NameUnreadable(YMap(doc))
    ensures y0 == Relabel(doc)
    ensures Settle(Assign(y0, StrategyPath, "type", RollingUpdate), y0, StrategyFault) == Ok(y1)
    ensures SelectorStep(y1, false) == Ok(y2)
    ensures DropKeys(y2, StrategyPath, LegacyStrategyKeys, StrategyFault) == Ok(y3)
    ensures ImageStep(y3, registry, false) == Ok(y4)
    ensures DropKeys(y4, SpecPath, InlineSpecKeys, CleanupFault) == InlineConvert(doc, registry)
  {
    y0 := Relabel(doc);
    y1 := InlineEarly(doc).value;
    y2 := SelectorStep(y1, false).value;
    y3 := DropKeys(y2, StrategyPath, LegacyStrategyKeys, StrategyFault).value;
    y4 := ImageStep(y3, registry, false).value;
    assert InlineLater(y1, registry) == Ok(y4);
  }

  /** `q` avoids every path a step after the relabelling may change. */
  predicate InlineUntouched(q: Path) {
    && Apart(TypePath, q)
    && Apart(SelectorPath, q)
    && Clear(Touch(StrategyPath, LegacyStrategyKeys), q)
    && Apart(ImagePath, q)
    && Clear(InlineCleanupTouched, q)
  }

  /** Five consecutive frames keep a lookup that avoids them all. */
  lemma InlineCarry(y0: Y, y1: Y, y2: Y, y3: Y, y4: Y, r: Y, q: Path)
    requires Frame(y0, y1, [TypePath]) && Frame(y1, y2, [SelectorPath])
    requires Frame(y2, y3, Touch(StrategyPath, LegacyStrategyKeys)) && Frame(y3, y4, [ImagePath])
    requires Frame(y4, r, InlineCleanupTouched)
    requires InlineUntouched(q)
    ensures Get(r, q) == Get(y0, q)
  {
    LemmaKeepOne(y0, y1, TypePath, q);
    LemmaKeepOne(y1, y2, SelectorPath, q);
    LemmaFrameKeeps(y2, y3, Touch(StrategyPath, LegacyStrategyKeys), q);
    LemmaKeepOne(y3, y4, ImagePath, q);
    LemmaFrameKeeps(y4, r, InlineCleanupTouched, q);
  }

  /** A lookup that avoids the steps' paths reads the same in the relabelled
      input and in the result. */
  lemma InlineTransport(doc: map<string, Y>, registry: string, q: Path)
    requires InlineConvert(doc, registry).Ok? && InlineUntouched(q)
    ensures Get(InlineConvert(doc, registry).value, q) == Get(Relabel(doc), q)
  {
    var y0, y1, y2, y3, y4 := InlineTrace(doc, registry);
    LemmaTypeStep(y0, y1);
    InlineCarry(y0, y1, y2, y3, y4, InlineConvert(doc, registry).value, q);
  }

  /** Paths outside `spec` avoid every step after the relabelling: the inline
      conversion deletes nothing at the top level. */
  lemma LemmaInlineOutsideSpec(q: Path)
    requires |q| > 0 && q[0] != Key("spec")
    ensures InlineUntouched(q)
  {
  }

  /** After conversion the manifest is a `Deployment` of `apps/v1`
      (python.py lines 48-49). */
  lemma LemmaInlineRelabels(doc: map<string, Y>, registry: string)
    requires InlineConvert(doc, registry).Ok?
    ensures Get(InlineConvert(doc, registry).value, [Key("kind")]) == Found(Deployment)
    ensures Get(InlineConvert(doc, registry).value, [Key("apiVersion")]) == Found(AppsV1)
  {
    LemmaInlineOutsideSpec([Key("kind")]);
    LemmaInlineOutsideSpec([Key("apiVersion")]);
    InlineTransport(doc, registry, [Key("kind")]);
    InlineTransport(doc, registry, [Key("apiVersion")]);
  }

  /** Everything outside `spec` other than `kind` and `apiVersion` — in
      particular `metadata` and top-level `status` — is kept as it was. */
  lemma LemmaInlineKeepsOutside(doc: map<string, Y>, registry: string, q: Path)
    requires InlineConvert(doc, registry).Ok?
    requires |q| > 0 && q[0] != Key("spec") && q[0] != Key("kind") && q[0] != Key("apiVersion")
    ensures Get(InlineConvert(doc, registry).value, q) == Get(YMap(doc), q)
  {
    LemmaInlineOutsideSpec(q);
    LemmaRelabelKeeps(doc, q);
    InlineTransport(doc, registry, q);
  }

  /** Every entry of `spec` the inline conversion has no business with —
      `replicas`, all of `template` except the first container's `image`,
      and so on — reads the same in the result as in the input. */
  lemma LemmaInlineKeepsSpecEntry(doc: map<string, Y>, registry: string, q: Path)
    requires InlineConvert(doc, registry).Ok?
    requires |q| > 1 && q[0] == Key("spec")
    requires q[1] != Key("strategy") && q[1] != Key("selector") && q[1] != Key("triggers") && q[1] != Key("test")
    requires q[1] != Key("strategy/activeDeadlineSeconds") && q[1] != Key("strategy/resources")
    requires Apart(ImagePath, q)
    ensures Get(InlineConvert(doc, registry).value, q) == Get(YMap(doc), q)
  {
    var y0, y1, y2, y3, y4 := InlineTrace(doc, registry);
    LemmaTypeStep(y0, y1);
    LemmaLegacyStep(y2, y3);
    InlineSpecCarry(YMap(doc), y0, y1, y2, y3, y4, InlineConvert(doc, registry).value, q);
  }

  /** Every step keeps a lookup into `spec` that avoids all of them. */
  lemma InlineSpecCarry(d: Y, y0: Y, y1: Y, y2: Y, y3: Y, y4: Y, r: Y, q: Path)
    requires Frame(d, y0, RelabelTouched) && Frame(y0, y1, [TypePath]) && Frame(y1, y2, [SelectorPath])
    requires Frame(y2, y3, Touch(StrategyPath, LegacyStrategyKeys)) && Frame(y3, y4, [ImagePath])
    requires Frame(y4, r, InlineCleanupTouched)
    requires |q| > 1 && q[0] == Key("spec")
    requires q[1] != Key("strategy") && q[1] != Key("selector") && q[1] != Key("triggers") && q[1] != Key("test")
    requires q[1] != Key("strategy/activeDeadlineSeconds") && q[1] != Key("strategy/resources")
    requires Apart(ImagePath, q)
    ensures Get(r, q) == Get(d, q)
  {
    InlineCarryEarly(d, y0, y1, y2, y3, q);
    LemmaKeepOne(y3, y4, ImagePath, q);
    LemmaCleanupAside(q);
    LemmaFrameKeeps(y4, r, InlineCleanupTouched, q);
  }

  /** The deletion loop leaves `spec.strategy` alone: its slash-containing
      keys name entries of `spec`, not of `spec.strategy`. */
  lemma LemmaCleanupAside(q: Path)
    requires |q| > 1 && q[0] == Key("spec")
    requires q[1] != Key("triggers") && q[1] != Key("test")
    requires q[1] != Key("strategy/activeDeadlineSeconds") && q[1] != Key("strategy/resources")
    ensures Clear(InlineCleanupTouched, q)
  {
    assert q[..1] == SpecPath;
    LemmaTouchAside(SpecPath, InlineSpecKeys, q);
  }

  /** The legacy-key deletions (python.py lines 78-88) change nothing but
      those two entries of `spec.strategy`. */
  lemma LemmaLegacyStep(y2: Y, y3: Y)
    requires DropKeys(y2, StrategyPath, LegacyStrategyKeys, StrategyFault) == Ok(y3)
    ensures !Faulty(y2, StrategyPath)
    ensures Frame(y2, y3, Touch(StrategyPath, LegacyStrategyKeys))
    ensures !Get(y2, StrategyPath).Found? ==> y3 == y2
    ensures Get(y2, StrategyPath).Found? ==>
              Get(y3, StrategyPath) == Found(YMap(Get(y2, StrategyPath).value.entries - {"rollingParams", "activeDeadlineSeconds"}))
  {
    assert (set k | k in LegacyStrategyKeys) == {"rollingParams", "activeDeadlineSeconds"};
  }

  /** The image step and the deletion loop keep a lookup into `spec` that
      enters none of `template`, `triggers`, `test` and the slash-named
      keys. */
  lemma InlineCarryLate(y3: Y, y4: Y, r: Y, q: Path)
    requires Frame(y3, y4, [ImagePath]) && Frame(y4, r, InlineCleanupTouched)
    requires |q| > 1 && q[0] == Key("spec") && q[1] != Key("template")
    requires q[1] != Key("triggers") && q[1] != Key("test")
    requires q[1] != Key("strategy/activeDeadlineSeconds") && q[1] != Key("strategy/resources")
    ensures Get(r, q) == Get(y3, q)
  {
    LemmaApartSecond(ImagePath, q);
    LemmaKeepOne(y3, y4, ImagePath, q);
    LemmaCleanupAside(q);
    LemmaFrameKeeps(y4, r, InlineCleanupTouched, q);
  }

  /** The strategy (python.py lines 52-55 and 78-88): a mapping becomes a
      `RollingUpdate` without `rollingParams` or `activeDeadlineSeconds`,
      every other entry kept — `resources` included; an absent one stays
      absent. */
  lemma LemmaInlineStrategy(doc: map<string, Y>, registry: string)
    requires InlineConvert(doc, registry).Ok?
    ensures !Faulty(YMap(doc), StrategyPath)
    ensures Get(YMap(doc), StrategyPath).Found? ==>
              Get(InlineConvert(doc, registry).value, StrategyPath)
              == Found(YMap(Get(YMap(doc), StrategyPath).value.entries["type" := RollingUpdate]
                            - {"rollingParams", "activeDeadlineSeconds"}))
    ensures Get(YMap(doc), StrategyPath).Missing? ==> Get(InlineConvert(doc, registry).value, StrategyPath).Missing?
  {
    var y0, y1, y2, y3, y4 := InlineTrace(doc, registry);
    var r := InlineConvert(doc, registry).value;
    LemmaRelabelKeeps(doc, StrategyPath);
    LemmaTypeStep(y0, y1);
    LemmaApartSecond(SelectorPath, StrategyPath);
    LemmaKeepOne(y1, y2, SelectorPath, StrategyPath);
    LemmaLegacyStep(y2, y3);
    InlineCarryLate(y3, y4, r, StrategyPath);
  }

  /** `spec.strategy.resources` survives the conversion unchanged
      (python.py lines 103-108). */
  lemma LemmaInlineKeepsResources(doc: map<string, Y>, registry: string)
    requires InlineConvert(doc, registry).Ok?
    ensures Get(InlineConvert(doc, registry).value, StrategyPath + [Key("resources")])
         == Get(YMap(doc), StrategyPath + [Key("resources")])
  {
    LemmaInlineStrategy(doc, registry);
    LemmaResourcesKept(YMap(doc), InlineConvert(doc, registry).value);
  }

  /** A strategy rewritten as the inline steps rewrite it keeps its
      `resources` entry. */
  lemma LemmaResourcesKept(d: Y, r: Y)
    requires !Faulty(d, StrategyPath)
    requires Get(d, StrategyPath).Found? ==>
               Get(r, StrategyPath)
               == Found(YMap(Get(d, StrategyPath).value.entries["type" := RollingUpdate]
                             - {"rollingParams", "activeDeadlineSeconds"}))
    requires Get(d, StrategyPath).Missing? ==> Get(r, StrategyPath).Missing?
    ensures Get(r, StrategyPath + [Key("resources")]) == Get(d, StrategyPath + [Key("resources")])
  {
    LemmaGetConcat(r, StrategyPath, [Key("resources")]);
    LemmaGetConcat(d, StrategyPath, [Key("resources")]);
  }

  /** The steps before the image step keep a lookup into `spec` that enters
      neither `strategy` nor `selector`. */
  lemma InlineCarryEarly(d: Y, y0: Y, y1: Y, y2: Y, y3: Y, q: Path)
    requires Frame(d, y0, RelabelTouched) && Frame(y0, y1, [TypePath]) && Frame(y1, y2, [SelectorPath])
    requires Frame(y2, y3, Touch(StrategyPath, LegacyStrategyKeys))
    requires |q| > 1 && q[0] == Key("spec") && q[1] != Key("strategy") && q[1] != Key("selector")
    ensures Get(y3, q) == Get(d, q)
  {
    assert Clear(RelabelTouched, q);
    LemmaFrameKeeps(d, y0, RelabelTouched, q);
    LemmaApartSecond(TypePath, q);
    LemmaKeepOne(y0, y1, TypePath, q);
    LemmaApartSecond(SelectorPath, q);
    LemmaKeepOne(y1, y2, SelectorPath, q);
    LemmaApartSecond(StrategyPath, q);
    LemmaTouchApart(StrategyPath, LegacyStrategyKeys, q);
    LemmaFrameKeeps(y2, y3, Touch(StrategyPath, LegacyStrategyKeys), q);
  }

  /** The selector (python.py lines 58-73): a mapping is replaced by exactly
      what `Migrate` makes of it — a selector whose only key is
      `matchLabels`, holding the former sibling entries over the labels it
      had — and an absent one stays absent. */
  lemma LemmaInlineSelector(doc: map<string, Y>, registry: string)
    requires InlineConvert(doc, registry).Ok?
    ensures !SelectorFaulty(YMap(doc))
    ensures Get(YMap(doc), SelectorPath).Missing? ==> Get(InlineConvert(doc, registry).value, SelectorPath).Missing?
    ensures Get(YMap(doc), SelectorPath).Found? ==>
              var sel := Get(YMap(doc), SelectorPath).value.entries;
              && Migrate(sel).Some?
              && Get(InlineConvert(doc, registry).value, SelectorPath) == Found(YMap(Migrate(sel).value))
              && Migrate(sel).value.Keys == {MatchLabels}
              && ((MatchLabels in sel ==> sel[MatchLabels].YMap?) ==>
                    Migrate(sel).value[MatchLabels].YMap? && HoldsLabels(sel, Migrate(sel).value[MatchLabels].entries))
  {
    var y0, y1, y2, y3, y4 := InlineTrace(doc, registry);
    var r := InlineConvert(doc, registry).value;
    LemmaTypeStep(y0, y1);
    LemmaLegacyStep(y2, y3);
    InlineSelectorCarry(YMap(doc), y0, y1, y2, y3, y4, r);
    LemmaSelectorThrough(YMap(doc), y1, y2, r, false);
  }

  /** Every step but the selector step keeps the selector. */
  lemma InlineSelectorCarry(d: Y, y0: Y, y1: Y, y2: Y, y3: Y, y4: Y, r: Y)
    requires Frame(d, y0, RelabelTouched) && Frame(y0, y1, [TypePath])
    requires Frame(y2, y3, Touch(StrategyPath, LegacyStrategyKeys))
    requires Frame(y3, y4, [ImagePath]) && Frame(y4, r, InlineCleanupTouched)
    ensures Get(y1, SelectorPath) == Get(d, SelectorPath)
    ensures Get(r, SelectorPath) == Get(y2, SelectorPath)
  {
    var q := SelectorPath;
    assert Clear(RelabelTouched, q);
    LemmaFrameKeeps(d, y0, RelabelTouched, q);
    LemmaApartSecond(TypePath, q);
    LemmaKeepOne(y0, y1, TypePath, q);
    LemmaApartSecond(StrategyPath, q);
    LemmaTouchApart(StrategyPath, LegacyStrategyKeys, q);
    LemmaFrameKeeps(y2, y3, Touch(StrategyPath, LegacyStrategyKeys), q);
    InlineCarryLate(y3, y4, r, q);
  }

  /** The image (python.py lines 90-101): when the first trigger names an
      image and there is a first container, that container's `image`
      becomes `registry/name`; otherwise `spec.template` is left exactly as
      it was. */
  lemma LemmaInlineImage(doc: map<string, Y>, registry: string)
    requires InlineConvert(doc, registry).Ok?
    ensures !ImageFaulty(YMap(doc))
    ensures !ImageSkips(YMap(doc)) ==>
              Get(InlineConvert(doc, registry).value, ImagePath) == Found(YStr(registry + "/" + Render(Get(YMap(doc), TriggerNamePath).value)))
    ensures ImageSkips(YMap(doc)) ==> Get(InlineConvert(doc, registry).value, TemplatePath) == Get(YMap(doc), TemplatePath)
  {
    var y0, y1, y2, y3, y4 := InlineTrace(doc, registry);
    var r := InlineConvert(doc, registry).value;
    var d := YMap(doc);
    LemmaTypeStep(y0, y1);
    LemmaLegacyStep(y2, y3);
    InlineImageCarry(d, y0, y1, y2, y3, y4, r);
    LemmaImageThrough(d, y3, y4, r, registry, false);
  }

  /** Every step but the image step keeps what the image step reads and
      writes. */
  lemma InlineImageCarry(d: Y, y0: Y, y1: Y, y2: Y, y3: Y, y4: Y, r: Y)
    requires Frame(d, y0, RelabelTouched) && Frame(y0, y1, [TypePath]) && Frame(y1, y2, [SelectorPath])
    requires Frame(y2, y3, Touch(StrategyPath, LegacyStrategyKeys)) && Frame(y4, r, InlineCleanupTouched)
    ensures Get(y3, TriggerNamePath) == Get(d, TriggerNamePath)
    ensures Get(y3, ContainerPath) == Get(d, ContainerPath)
    ensures Get(y3, TemplatePath) == Get(d, TemplatePath)
    ensures Get(r, ImagePath) == Get(y4, ImagePath) && Get(r, TemplatePath) == Get(y4, TemplatePath)
  {
    InlineCarryEarly(d, y0, y1, y2, y3, TriggerNamePath);
    InlineCarryEarly(d, y0, y1, y2, y3, ContainerPath);
    InlineCarryEarly(d, y0, y1, y2, y3, TemplatePath);
    LemmaCleanupAside(ImagePath);
    LemmaFrameKeeps(y4, r, InlineCleanupTouched, ImagePath);
    LemmaCleanupAside(TemplatePath);
    LemmaFrameKeeps(y4, r, InlineCleanupTouched, TemplatePath);
  }

  /** `spec.triggers` and `spec.test` are gone from the result, and so are
      any keys of `spec` literally named `strategy/activeDeadlineSeconds` or
      `strategy/resources` (python.py lines 103-108). */
  lemma LemmaInlineRemoves(doc: map<string, Y>, registry: string)
    requires InlineConvert(doc, registry).Ok?
    ensures Get(InlineConvert(doc, registry).value, [Key("spec"), Key("triggers")]).Missing?
    ensures Get(InlineConvert(doc, registry).value, [Key("spec"), Key("test")]).Missing?
    ensures Get(InlineConvert(doc, registry).value, [Key("spec"), Key("strategy/activeDeadlineSeconds")]).Missing?
    ensures Get(InlineConvert(doc, registry).value, [Key("spec"), Key("strategy/resources")]).Missing?
  {
    var y0, y1, y2, y3, y4 := InlineTrace(doc, registry);
    LemmaCleanupRemoves(y4, InlineConvert(doc, registry).value);
  }

  /** What the deletion loop of lines 104-108 removes. */
  lemma LemmaCleanupRemoves(y4: Y, r: Y)
    requires DropKeys(y4, SpecPath, InlineSpecKeys, CleanupFault) == Ok(r)
    ensures Get(r, [Key("spec"), Key("triggers")]).Missing?
    ensures Get(r, [Key("spec"), Key("test")]).Missing?
    ensures Get(r, [Key("spec"), Key("strategy/activeDeadlineSeconds")]).Missing?
    ensures Get(r, [Key("spec"), Key("strategy/resources")]).Missing?
  {
    LemmaDropKeysRemoves(y4, SpecPath, InlineSpecKeys, CleanupFault, 0);
    LemmaDropKeysRemoves(y4, SpecPath, InlineSpecKeys, CleanupFault, 1);
    LemmaDropKeysRemoves(y4, SpecPath, InlineSpecKeys, CleanupFault, 2);
    LemmaDropKeysRemoves(y4, SpecPath, InlineSpecKeys, CleanupFault, 3);
    assert SpecPath + [Key(InlineSpecKeys[0])] == [Key("spec"), Key("triggers")];
    assert SpecPath + [Key(InlineSpecKeys[1])] == [Key("spec"), Key("test")];
    assert SpecPath + [Key(InlineSpecKeys[2])] == [Key("spec"), Key("strategy/activeDeadlineSeconds")];
    assert SpecPath + [Key(InlineSpecKeys[3])] == [Key("spec"), Key("strategy/resources")];
  }

  /** Nothing outside the touched paths changes. */
  lemma LemmaInlineFrame(doc: map<string, Y>, registry: string)
    requires InlineConvert(doc, registry).Ok?
    ensures Frame(YMap(doc), InlineConvert(doc, registry).value, InlineTouched)
  {
    var y0, y1, y2, y3, y4 := InlineTrace(doc, registry);
    var r := InlineConvert(doc, registry).value;
    var d := YMap(doc);
    LemmaTypeStep(y0, y1);
    var t1 := RelabelTouched + [TypePath];
    var t2 := t1 + [SelectorPath];
    var t3 := t2 + Touch(StrategyPath, LegacyStrategyKeys);
    var t4 := t3 + [ImagePath];
    LemmaFrameChain(d, y0, y1, RelabelTouched, [TypePath]);
    LemmaFrameChain(d, y1, y2, t1, [SelectorPath]);
    LemmaFrameChain(d, y2, y3, t2, Touch(StrategyPath, LegacyStrategyKeys));
    LemmaFrameChain(d, y3, y4, t3, [ImagePath]);
    LemmaFrameChain(d, y4, r, t4, InlineCleanupTouched);
  }

  /** When the inline conversion raises, read off the input manifest: a
      `metadata` that is not a mapping, a strategy that is there but is not
      a mapping, a selector that cannot be migrated, or an image chain that
      meets a non-container. */
  predicate InlineRaises(doc: map<string, Y>) {
    var d := YMap(doc);
    NameUnreadable(d) || Faulty(d, StrategyPath) || SelectorFaulty(d) || ImageFaulty(d)
  }

  /** The type assignment leaves what the later steps test. */
  lemma LemmaTypeKeepsTests(y0: Y, y1: Y)
    requires Frame(y0, y1, [TypePath])
    ensures Get(y1, SelectorPath) == Get(y0, SelectorPath)
    ensures Get(y1, TriggerNamePath) == Get(y0, TriggerNamePath)
    ensures Get(y1, ContainerPath) == Get(y0, ContainerPath)
    ensures Get(y1, MetadataPath) == Get(y0, MetadataPath)
  {
    LemmaApartSecond(TypePath, SelectorPath);
    LemmaKeepOne(y0, y1, TypePath, SelectorPath);
    LemmaApartSecond(TypePath, TriggerNamePath);
    LemmaKeepOne(y0, y1, TypePath, TriggerNamePath);
    LemmaApartSecond(TypePath, ContainerPath);
    LemmaKeepOne(y0, y1, TypePath, ContainerPath);
    LemmaKeepOne(y0, y1, TypePath, MetadataPath);
  }

  /** The legacy-key deletions leave what the later steps test. */
  lemma LemmaLegacyKeepsTests(y2: Y, y3: Y)
    requires Frame(y2, y3, Touch(StrategyPath, LegacyStrategyKeys))
    ensures Get(y3, SelectorPath) == Get(y2, SelectorPath)
    ensures Get(y3, TriggerNamePath) == Get(y2, TriggerNamePath)
    ensures Get(y3, ContainerPath) == Get(y2, ContainerPath)
    ensures Get(y3, MetadataPath) == Get(y2, MetadataPath)
  {
    var t := Touch(StrategyPath, LegacyStrategyKeys);
    LemmaApartSecond(StrategyPath, SelectorPath);
    LemmaTouchApart(StrategyPath, LegacyStrategyKeys, SelectorPath);
    LemmaFrameKeeps(y2, y3, t, SelectorPath);
    LemmaApartSecond(StrategyPath, TriggerNamePath);
    LemmaTouchApart(StrategyPath, LegacyStrategyKeys, TriggerNamePath);
    LemmaFrameKeeps(y2, y3, t, TriggerNamePath);
    LemmaApartSecond(StrategyPath, ContainerPath);
    LemmaTouchApart(StrategyPath, LegacyStrategyKeys, ContainerPath);
    LemmaFrameKeeps(y2, y3, t, ContainerPath);
    LemmaTouchApart(StrategyPath, LegacyStrategyKeys, MetadataPath);
    LemmaFrameKeeps(y2, y3, t, MetadataPath);
  }

  /** The strategy is left absent or a mapping by the type assignment, the
      selector step and the legacy-key deletions. */
  lemma LemmaStrategyShape(y1: Y, y2: Y, y3: Y)
    requires !Faulty(y1, StrategyPath) && Frame(y1, y2, [SelectorPath])
    requires DropKeys(y2, StrategyPath, LegacyStrategyKeys, StrategyFault) == Ok(y3)
    ensures !Faulty(y2, StrategyPath) && !Faulty(y3, StrategyPath)
  {
    LemmaApartSecond(SelectorPath, StrategyPath);
    LemmaKeepOne(y1, y2, SelectorPath, StrategyPath);
  }

  /** The selector, legacy-key and image steps raise exactly when the
      selector cannot be migrated or the image chain meets a non-container. */
  lemma LemmaLaterRaises(y1: Y, registry: string)
    requires !Faulty(y1, StrategyPath)
    ensures InlineLater(y1, registry).Err? <==> SelectorFaulty(y1) || ImageFaulty(y1)
  {
    if SelectorStep(y1, false).Ok? {
      var y2 := SelectorStep(y1, false).value;
      LemmaSelectorKeepsTests(y1, y2);
      LemmaApartSecond(SelectorPath, StrategyPath);
      LemmaKeepOne(y1, y2, SelectorPath, StrategyPath);
      var y3 := DropKeys(y2, StrategyPath, LegacyStrategyKeys, StrategyFault).value;
      LemmaLegacyKeepsTests(y2, y3);
      assert ImageFaulty(y3) == ImageFaulty(y1);
    }
  }

  /** The inline steps before the deletion loop raise exactly when
      `InlineRaises` says so. */
  lemma LemmaInlinePrepareRaises(doc: map<string, Y>, registry: string)
    ensures InlinePrepare(doc, registry).Err? <==> InlineRaises(doc)
  {
    var d := YMap(doc);
    if !NameUnreadable(d) {
      var y0 := Relabel(doc);
      LemmaRelabelKeepsTests(doc);
      LemmaSameTests(d, y0);
      if InlineEarly(doc).Ok? {
        var y1 := InlineEarly(doc).value;
        LemmaTypeStep(y0, y1);
        LemmaTypeKeepsTests(y0, y1);
        LemmaSameTests(d, y1);
        LemmaLaterRaises(y1, registry);
      }
    }
  }

  /** The selector, legacy-key and image steps keep the root a mapping and
      `spec.strategy` absent or a mapping. */
  lemma LemmaLaterShape(y1: Y, registry: string)
    requires y1.YMap? && !Faulty(y1, StrategyPath) && InlineLater(y1, registry).Ok?
    ensures InlineLater(y1, registry).value.YMap?
    ensures !Faulty(InlineLater(y1, registry).value, StrategyPath)
  {
    var y2 := SelectorStep(y1, false).value;
    var y3 := DropKeys(y2, StrategyPath, LegacyStrategyKeys, StrategyFault).value;
    var y4 := InlineLater(y1, registry).value;
    LemmaStrategyShape(y1, y2, y3);
    LemmaLegacyStep(y2, y3);
    LemmaInlineOutsideSpec([Key("kind")]);
    LemmaStaysMap(y1, y2, [SelectorPath], "kind");
    LemmaStaysMap(y2, y3, Touch(StrategyPath, LegacyStrategyKeys), "kind");
    LemmaStaysMap(y3, y4, [ImagePath], "kind");
    LemmaApartSecond(ImagePath, StrategyPath);
    LemmaKeepOne(y3, y4, ImagePath, StrategyPath);
  }

  /** After the inline steps the root is a mapping whose `spec.strategy` is
      absent or a mapping. */
  lemma InlinePrepareShape(doc: map<string, Y>, registry: string)
    requires InlinePrepare(doc, registry).Ok?
    ensures InlinePrepare(doc, registry).value.YMap?
    ensures !Faulty(InlinePrepare(doc, registry).value, StrategyPath)
  {
    var y0 := Relabel(doc);
    var y1 := InlineEarly(doc).value;
    LemmaTypeStep(y0, y1);
    LemmaInlineOutsideSpec([Key("kind")]);
    LemmaStaysMap(y0, y1, [TypePath], "kind");
    LemmaLaterShape(y1, registry);
  }

  /** The inline conversion raises exactly when `InlineRaises` says so; the
      deletion loop itself never raises. */
  lemma LemmaInlineRaises(doc: map<string, Y>, registry: string)
    ensures InlineConvert(doc, registry).Err? <==> InlineRaises(doc)
    ensures NameUnreadable(YMap(doc)) ==> InlineConvert(doc, registry) == Err(MetadataFault)
  {
    LemmaInlinePrepareRaises(doc, registry);
    if InlinePrepare(doc, registry).Ok? {
      InlinePrepareShape(doc, registry);
      LemmaSpecShape(InlinePrepare(doc, registry).value);
    }
  }

  /** A converted manifest is a non-empty mapping whose kind is no longer
      `DeploymentConfig`. */
  lemma LemmaInlineConverted(doc: map<string, Y>, registry: string)
    requires InlineConvert(doc, registry).Ok?
    ensures InlineConvert(doc, registry).value.YMap?
    ensures "kind" in InlineConvert(doc, registry).value.entries
    ensures InlineConvert(doc, registry).value.entries["kind"] == Deployment
  {
    LemmaInlineRelabels(doc, registry);
    assert Get(InlineConvert(doc, registry).value, [Key("kind")])
        == Sub(InlineConvert(doc, registry).value, Key("kind"));
  }

  /** Whatever one document becomes, the loop passes it through on a second
      run. */
  lemma LemmaConvertOneSettles(doc: Y, registry: string)
    requires ConvertOne(doc, registry).Ok?
    ensures ConvertOne(ConvertOne(doc, registry).value, registry) == ConvertOne(doc, registry)
  {
    if Truthy(doc) && doc.YMap? && "kind" in doc.entries && doc.entries["kind"] == DeploymentConfig {
      LemmaInlineConverted(doc.entries, registry);
    }
  }

  /** A list every document of which passes through unchanged. */
  lemma LemmaConvertAllFixed(docs: seq<Y>, registry: string)
    requires forall i :: 0 <= i < |docs| ==> ConvertOne(docs[i], registry) == Ok(docs[i])
    ensures ConvertAll(docs, registry) == Ok(docs)
  {
    var r := ConvertAll(docs, registry);
    assert r.Ok?;
    forall i | 0 <= i < |docs| ensures r.value[i] == docs[i] {
      assert ConvertOne(docs[i], registry) == Ok(r.value[i]);
    }
    assert r.value == docs;
  }

  /** Running the loop over its own output changes nothing: every converted
      manifest is now a `Deployment`, which the kind test skips. */
  lemma LemmaConvertAllIdempotent(docs: seq<Y>, registry: string)
    requires ConvertAll(docs, registry).Ok?
    ensures ConvertAll(ConvertAll(docs, registry).value, registry) == ConvertAll(docs, registry)
  {
    var r := ConvertAll(docs, registry).value;
    forall i | 0 <= i < |r| ensures ConvertOne(r[i], registry) == Ok(r[i]) {
      LemmaConvertOneSettles(docs[i], registry);
    }
    LemmaConvertAllFixed(r, registry);
  }

  /** The loop keeps each document's `metadata`: converted manifests keep
      it, and every other document passes through. */
  lemma LemmaConvertOneKeepsMetadata(doc: Y, registry: string)
    requires ConvertOne(doc, registry).Ok?
    ensures Get(ConvertOne(doc, registry).value, MetadataPath) == Get(doc, MetadataPath)
  {
    if Truthy(doc) && doc.YMap? && "kind" in doc.entries && doc.entries["kind"] == DeploymentConfig {
      LemmaInlineKeepsOutside(doc.entries, registry, MetadataPath);
    }
  }

  /** Processing a processed file again changes nothing, except that an
      empty document still left at its end is dropped: the first
      document's name stays readable and every document passes through. */
  lemma LemmaProcessFileRerun(docs: seq<Y>, registry: string)
    requires ProcessFile(docs, registry).Ok?
    ensures ProcessFile(ProcessFile(docs, registry).value, registry)
            == Ok(DropTrailingNone(ProcessFile(docs, registry).value))
  {
    var ds := DropTrailingNone(docs);
    var r := ProcessFile(docs, registry).value;
    var ds2 := DropTrailingNone(r);
    forall i | 0 <= i < |ds2|
      ensures ConvertOne(ds2[i], registry) == Ok(ds2[i])
    {
      assert ds2[i] == r[i];
      LemmaConvertOneSettles(ds[i], registry);
    }
    if |ds2| > 0 {
      assert ds2[0] == r[0];
      LemmaConvertOneKeepsMetadata(ds[0], registry);
    }
    LemmaConvertAllFixed(ds2, registry);
  }

  /** The deletions as evidently meant reach into `spec.strategy`: the
      result has neither `spec.triggers`, `spec.test`,
      `spec.strategy.activeDeadlineSeconds` nor `spec.strategy.resources`. */
  lemma LemmaIntendedRemoves(doc: map<string, Y>, registry: string)
    requires InlineConvertIntended(doc, registry).Ok?
    ensures Get(InlineConvertIntended(doc, registry).value, [Key("spec"), Key("triggers")]).Missing?
    ensures Get(InlineConvertIntended(doc, registry).value, [Key("spec"), Key("test")]).Missing?
    ensures Get(InlineConvertIntended(doc, registry).value, StrategyPath + [Key("activeDeadlineSeconds")]).Missing?
    ensures Get(InlineConvertIntended(doc, registry).value, StrategyPath + [Key("resources")]).Missing?
  {
    var y4 := InlinePrepare(doc, registry).value;
    var keys := ["triggers", "test"];
    var y5 := DropKeys(y4, SpecPath, keys, CleanupFault).value;
    var strategyKeys := LegacyStrategyKeys + ["resources"];
    var r := InlineConvertIntended(doc, registry).value;
    assert DropKeys(y5, StrategyPath, strategyKeys, CleanupFault) == Ok(r);
    var triggers := [Key("spec"), Key("triggers")];
    var test := [Key("spec"), Key("test")];
    LemmaDropKeysRemoves(y4, SpecPath, keys, CleanupFault, 0);
    LemmaDropKeysRemoves(y4, SpecPath, keys, CleanupFault, 1);
    assert SpecPath + [Key(keys[0])] == triggers && SpecPath + [Key(keys[1])] == test;
    LemmaApartSecond(StrategyPath, triggers);
    LemmaApartSecond(StrategyPath, test);
    LemmaTouchApart(StrategyPath, strategyKeys, triggers);
    LemmaTouchApart(StrategyPath, strategyKeys, test);
    LemmaFrameKeeps(y5, r, Touch(StrategyPath, strategyKeys), triggers);
    LemmaFrameKeeps(y5, r, Touch(StrategyPath, strategyKeys), test);
    LemmaDropKeysRemoves(y5, StrategyPath, strategyKeys, CleanupFault, 1);
    LemmaDropKeysRemoves(y5, StrategyPath, strategyKeys, CleanupFault, 2);
  }

  /** The evidently meant deletions raise exactly when the written ones do:
      only what is deleted differs. */
  lemma LemmaIntendedAgrees(doc: map<string, Y>, registry: string)
    ensures InlineConvertIntended(doc, registry).Ok? <==> InlineConvert(doc, registry).Ok?
  {
    LemmaInlineRaises(doc, registry);
    if InlinePrepare(doc, registry).Ok? {
      var y4 := InlinePrepare(doc, registry).value;
      InlinePrepareShape(doc, registry);
      LemmaSpecShape(y4);
      var keys := ["triggers", "test"];
      var y5 := DropKeys(y4, SpecPath, keys, CleanupFault).value;
      assert StrategyPath[..1] == SpecPath;
      LemmaTouchAside(SpecPath, keys, StrategyPath);
      LemmaFrameKeeps(y4, y5, Touch(SpecPath, keys), StrategyPath);
    }
  }
}
