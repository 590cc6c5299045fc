/** The per-file loop of python.py (lines 27-108): drop one trailing empty
    document, then convert, in order and in place, every document whose
    `kind` is `DeploymentConfig`, with the rewrite written out inline. */
module ManifestLoop {
  import opened Wrappers
  import opened YamlTree
  import opened Steps
  import opened Selector
  import opened DeploymentRewrite

  /** The registry host of python.py line 10. */
  const ScriptRegistry: string := "default-route-openshift-image-registry.mydomain.com:5000"

  /** The kind the loop converts (line 43). */
  const DeploymentConfig: Y := YStr("DeploymentConfig")

  /** Deleted from `spec` (line 104). The last two contain a slash, so they
      name keys of `spec` itself, not entries of `spec.strategy`. */
  const InlineSpecKeys: seq<string> := ["triggers", "test", "strategy/activeDeadlineSeconds", "strategy/resources"]

  /** Where `manifest['spec']['strategy']['type'] = ...` (line 53) writes. */
  const TypePath: Path := StrategyPath + [Key("type")]

  /** What the deletion loop of lines 104-108 may change. */
  const InlineCleanupTouched: seq<Path> := Touch(SpecPath, InlineSpecKeys)

  /** Every path the inline conversion may change, step by step in source
      order; any lookup clear of all of them reads the same before and
      after. */
  const InlineTouched: seq<Path> :=
    RelabelTouched + [TypePath] + [SelectorPath] + Touch(StrategyPath, LegacyStrategyKeys)
    + [ImagePath] + InlineCleanupTouched

  /** `manifest.get('metadata', {}).get('name')` (line 45) raises: the
      manifest has a `metadata` that is not a mapping. */
  predicate NameUnreadable(y: Y) {
    Faulty(y, MetadataPath)
  }

  /** The steps of lines 45-55: read the name, relabel, force the strategy
      type. */
  function InlineEarly(doc: map<string, Y>): Result<Y, Fault> {
    if NameUnreadable(YMap(doc)) then Err(MetadataFault)
    else
      var y0 := Relabel(doc);
      Settle(Assign(y0, StrategyPath, "type", RollingUpdate), y0, StrategyFault)
  }

  /** The steps of lines 57-101: selector, legacy strategy keys, image. */
  function InlineLater(y1: Y, registry: string): Result<Y, Fault> {
    var y2 :- SelectorStep(y1, false);
    var y3 :- DropKeys(y2, StrategyPath, LegacyStrategyKeys, StrategyFault);
    ImageStep(y3, registry, false)
  }

  /** The steps of lines 45-101, up to the deletion loop. */
  function InlinePrepare(doc: map<string, Y>, registry: string): Result<Y, Fault> {
    var y1 :- InlineEarly(doc);
    InlineLater(y1, registry)
  }

  /** One DeploymentConfig converted by the inline steps of lines 45-108.
      Its skip diagnostics print a name read beforehand, so a skip never
      raises. */
  function InlineConvert(doc: map<string, Y>, registry: string): (r: Result<Y, Fault>)
    ensures r.Err? ==> r.error != ReportFault && r.error != RenameFault && r.error != KindFault
  {
    var y4 :- InlinePrepare(doc, registry);
    DropKeys(y4, SpecPath, InlineSpecKeys, CleanupFault)
  }

  /** What the deletion loop evidently meant: the slash-separated keys as
      paths into `spec.strategy`. */
  function InlineConvertIntended(doc: map<string, Y>, registry: string): (r: Result<Y, Fault>)
    ensures r.Err? ==> r.error != ReportFault
  {
    var y4 :- InlinePrepare(doc, registry);
    var y5 :- DropKeys(y4, SpecPath, ["triggers", "test"], CleanupFault);
    DropKeys(y5, StrategyPath, LegacyStrategyKeys + ["resources"], CleanupFault)
  }

  /** `if manifest and manifest['kind'] == 'DeploymentConfig'` (line 43) and
      what follows: empty documents and other kinds pass through, a
      non-empty document that is not a mapping or has no `kind` raises. */
  function ConvertOne(doc: Y, registry: string): (r: Result<Y, Fault>)
    ensures !Truthy(doc) ==> r == Ok(doc)
    ensures r.Err? ==> r.error != RenameFault
    ensures r.Err? && r.error == KindFault <==> Truthy(doc) && (!doc.YMap? || "kind" !in doc.entries)
    ensures doc.YMap? && "kind" in doc.entries && doc.entries["kind"] != DeploymentConfig ==> r == Ok(doc)
    ensures Truthy(doc) && doc.YMap? && "kind" in doc.entries && doc.entries["kind"] == DeploymentConfig ==>
              r == InlineConvert(doc.entries, registry)
  {
    if !Truthy(doc) then Ok(doc)
    else
      match Sub(doc, Key("kind"))
      case Found(kind) =>
        if kind == DeploymentConfig then InlineConvert(doc.entries, registry) else Ok(doc)
      case _ => Err(KindFault)
  }

  /** The loop of lines 42-108 over the whole list: each document is
      converted or passed through in its place, and the first exception
      ends the file. */
  function ConvertAll(docs: seq<Y>, registry: string): (r: Result<seq<Y>, Fault>)
    ensures r.Ok? ==> |r.value| == |docs|
    ensures r.Ok? ==> forall i :: 0 <= i < |docs| ==> ConvertOne(docs[i], registry) == Ok(r.value[i])
    ensures r.Err? <==> exists i :: 0 <= i < |docs| && ConvertOne(docs[i], registry).Err?
    ensures r.Err? ==> exists i :: 0 <= i < |docs| && ConvertOne(docs[i], registry) == Err(r.error)
    ensures r.Err? ==> r.error != RenameFault
    decreases |docs|
  {
    if |docs| == 0 then Ok([])
    else
      var head :- ConvertOne(docs[0], registry);
      var tail :- ConvertAll(docs[1..], registry);
      assert forall i :: 1 <= i < |docs| ==> docs[i] == docs[1..][i - 1];
      Ok([head] + tail)
  }

  /** Lines 27-29: one trailing empty document (`None`) is removed. */
  function DropTrailingNone(docs: seq<Y>): (r: seq<Y>)
    ensures r <= docs && |docs| - 1 <= |r|
    ensures |r| < |docs| <==> |docs| > 0 && docs[|docs| - 1] == YNull
  {
    if |docs| > 0 && docs[|docs| - 1] == YNull then docs[..|docs| - 1] else docs
  }

  /** One input file, from its loaded documents: the trailing empty
      document is dropped; reading the first document's name for the copy's
      file name (line 35) raises unless it is a mapping whose `metadata`,
      if any, is a mapping; then every document is converted. */
  function ProcessFile(docs: seq<Y>, registry: string): (r: Result<seq<Y>, Fault>)
    ensures r.Ok? ==> |r.value| == |DropTrailingNone(docs)|
    ensures r.Err? && r.error == RenameFault <==>
              |DropTrailingNone(docs)| > 0 && Faulty(DropTrailingNone(docs)[0], MetadataPath)
    ensures r.Ok? ==> forall i :: 0 <= i < |r.value| ==> ConvertOne(DropTrailingNone(docs)[i], registry) == Ok(r.value[i])
    ensures r.Err? <==>
              || (|DropTrailingNone(docs)| > 0 && Faulty(DropTrailingNone(docs)[0], MetadataPath))
              || exists i :: 0 <= i < |DropTrailingNone(docs)| && ConvertOne(DropTrailingNone(docs)[i], registry).Err?
  {
    var ds := DropTrailingNone(docs);
    if |ds| > 0 && Faulty(ds[0], MetadataPath) then Err(RenameFault)
    else ConvertAll(ds, registry)
  }
}
