/** The mutating statements the converter is built from — `node[key] = v`
    and `del node[key]` at the end of a chain of subscriptions — each
    reporting whether it took effect, was skipped by a caught `KeyError`,
    or raised an exception that no handler catches. */
module Steps {
  import opened Wrappers
  import opened YamlTree

  /** The statement whose exception escaped the conversion. */
  datatype Fault =
    | KindFault        // `manifest['kind']` on a document that is not a mapping or has no kind
    | MetadataFault    // `.get('name')` on a metadata value that is not a mapping
    | StrategyFault
    | SelectorFault
    | ImageFault
    | ReportFault      // the diagnostic `manifest['metadata'].get('name')` inside a handler
    | CleanupFault
    | RenameFault      // `deploymentconfigs[0].get('metadata', {}).get('name')`

  /** What one guarded statement did. */
  datatype Outcome = Applied(doc: Y) | Skipped | Raised

  /** The node at `p` exists but cannot be assigned into or deleted from by
      string key: Python raises `TypeError`. */
  predicate Faulty(y: Y, p: Path) {
    Get(y, p).Clash? || (Get(y, p).Found? && !Get(y, p).value.YMap?)
  }

  /** `try: <statement> except KeyError: pass` — a skip keeps the document,
      an escaping exception aborts with `f`. */
  function Settle(o: Outcome, y: Y, f: Fault): Result<Y, Fault> {
    match o
    case Applied(z) => Ok(z)
    case Skipped => Ok(y)
    case Raised => Err(f)
  }

  /** When `!Apart(p, q)` but `Apart(p + [g], q)`, `q` runs through `p` and
      then leaves by a segment other than `g`. */
  lemma {:induction false} LemmaApartSplit(p: Path, g: Seg, q: Path)
    requires Apart(p + [g], q) && !Apart(p, q)
    ensures |q| > |p| && q[..|p|] == p && q[|p|] != g
    decreases |p|
  {
    if |p| > 0 {
      assert (p + [g])[0] == p[0];
      assert (p + [g])[1..] == p[1..] + [g];
      LemmaApartSplit(p[1..], g, q[1..]);
      assert q == [q[0]] + q[1..];
    }
  }

  /** Replacing the mapping at `p` by one that differs from it only at key `k`
      changes nothing apart from `p + [Key(k)]`. */
  lemma LemmaEntryFrame(y: Y, p: Path, c: map<string, Y>, c': map<string, Y>, k: string)
    requires Get(y, p) == Found(YMap(c))
    requires forall j :: j != k ==> (j in c <==> j in c')
    requires forall j :: j != k && j in c ==> c[j] == c'[j]
    ensures Within(y, p)
    ensures Frame(y, Put(y, p, YMap(c')), [p + [Key(k)]])
  {
    LemmaFoundMapWithin(y, p);
    var y' := Put(y, p, YMap(c'));
    forall q | Clear([p + [Key(k)]], q)
      ensures Get(y', q) == Get(y, q)
    {
      assert Apart([p + [Key(k)]][0], q);
      if Apart(p, q) {
        LemmaGetPutApart(y, p, YMap(c'), q);
      } else {
        LemmaApartSplit(p, Key(k), q);
        var r := q[|p|..];
        assert q == p + r;
        LemmaGetPutBelow(y, p, YMap(c'), r);
        LemmaGetConcat(y, p, r);
        assert Sub(YMap(c'), r[0]) == Sub(YMap(c), r[0]);
      }
    }
  }

  /** `node[k] = v`, where `node` is reached by `p`. */
  function Assign(y: Y, p: Path, k: string, v: Y): (o: Outcome)
    ensures o.Skipped? <==> Get(y, p).Missing?
    ensures o.Raised? <==> Faulty(y, p)
    ensures o.Applied? ==> Get(o.doc, p) == Found(YMap(Get(y, p).value.entries[k := v]))
    ensures o.Applied? ==> Get(o.doc, p + [Key(k)]) == Found(v)
    ensures o.Applied? ==> Frame(y, o.doc, [p + [Key(k)]])
  {
    match Get(y, p)
    case Missing => Skipped
    case Clash => Raised
    case Found(node) =>
      if node.YMap? then
        var c' := node.entries[k := v];
        LemmaEntryFrame(y, p, node.entries, c', k);
        LemmaGetPut(y, p, YMap(c'));
        LemmaGetPutBelow(y, p, YMap(c'), [Key(k)]);
        Applied(Put(y, p, YMap(c')))
      else Raised
  }

  /** `del node[k]`, where `node` is reached by `p`; an absent key is a
      `KeyError`, hence a skip. */
  function Delete(y: Y, p: Path, k: string): (o: Outcome)
    ensures o.Skipped? <==> Get(y, p).Missing? || (Get(y, p).Found? && Get(y, p).value.YMap? && k !in Get(y, p).value.entries)
    ensures o.Raised? <==> Faulty(y, p)
    ensures o.Applied? ==> Get(y, p).Found? && k in Get(y, p).value.entries
    ensures o.Applied? ==> Get(o.doc, p) == Found(YMap(Get(y, p).value.entries - {k}))
    ensures o.Applied? ==> Frame(y, o.doc, [p + [Key(k)]])
  {
    match Get(y, p)
    case Missing => Skipped
    case Clash => Raised
    case Found(node) =>
      if node.YMap? then
        if k in node.entries then
          var c' := node.entries - {k};
          LemmaEntryFrame(y, p, node.entries, c', k);
          LemmaGetPut(y, p, YMap(c'));
          Applied(Put(y, p, YMap(c')))
        else Skipped
      else Raised
  }

  /** The paths `p + [Key(k)]` for each `k` in `keys`. */
  function Touch(p: Path, keys: seq<string>): (t: seq<Path>)
    ensures |t| == |keys|
    ensures forall i :: 0 <= i < |keys| ==> t[i] == p + [Key(keys[i])]
  {
    seq(|keys|, i requires 0 <= i < |keys| => p + [Key(keys[i])])
  }

  /** A lookup apart from `p` avoids every key deleted below it. */
  lemma LemmaTouchApart(p: Path, keys: seq<string>, q: Path)
    requires Apart(p, q)
    ensures Clear(Touch(p, keys), q)
  {
    forall i | 0 <= i < |keys| ensures Apart(Touch(p, keys)[i], q) {
      LemmaApartExtend(p, Key(keys[i]), q);
    }
  }

  /** A lookup through `p` that continues by a key not in `keys` avoids
      every key deleted below `p`. */
  lemma LemmaTouchAside(p: Path, keys: seq<string>, q: Path)
    requires |q| > |p| && q[..|p|] == p
    requires forall i :: 0 <= i < |keys| ==> q[|p|] != Key(keys[i])
    ensures Clear(Touch(p, keys), q)
  {
    forall i | 0 <= i < |keys| ensures Apart(Touch(p, keys)[i], q) {
      LemmaApartAt(p, Key(keys[i]), q);
    }
  }

  /** `for key in keys: try: del node[key] except KeyError: pass`. */
  function DropKeys(y: Y, p: Path, keys: seq<string>, f: Fault): (r: Result<Y, Fault>)
    ensures r.Err? <==> |keys| > 0 && Faulty(y, p)
    ensures r.Err? ==> r.error == f
    ensures r.Ok? && !Get(y, p).Found? ==> r.value == y
    ensures r.Ok? && Get(y, p).Found? && Get(y, p).value.YMap? ==>
              Get(r.value, p) == Found(YMap(Get(y, p).value.entries - (set k | k in keys)))
    ensures r.Ok? ==> Frame(y, r.value, Touch(p, keys))
    decreases |keys|
  {
    if |keys| == 0 then Ok(y)
    else
      var y1 :- Settle(Delete(y, p, keys[0]), y, f);
      assert Get(y, p).Found? ==> Get(y1, p).Found? && Get(y1, p).value.YMap? &&
        Get(y1, p).value.entries == Get(y, p).value.entries - {keys[0]};
      assert Frame(y, y1, [p + [Key(keys[0])]]);
      var r := DropKeys(y1, p, keys[1..], f);
      assert r.Ok? && Get(y, p).Found? ==>
        Get(y, p).value.entries - {keys[0]} - (set k | k in keys[1..]) == Get(y, p).value.entries - (set k | k in keys);
      assert [p + [Key(keys[0])]] + Touch(p, keys[1..]) == Touch(p, keys);
      if r.Ok? then
        LemmaFrameChain(y, y1, r.value, [p + [Key(keys[0])]], Touch(p, keys[1..]));
        r
      else r
  }

  /** After `DropKeys`, none of the keys is reachable below `p`. */
  lemma LemmaDropKeysRemoves(y: Y, p: Path, keys: seq<string>, f: Fault, i: nat)
    requires DropKeys(y, p, keys, f).Ok? && i < |keys|
    ensures Get(DropKeys(y, p, keys, f).value, p + [Key(keys[i])]).Missing?
  {
    var r := DropKeys(y, p, keys, f).value;
    if Get(y, p).Found? && Get(y, p).value.YMap? {
      LemmaGetConcat(r, p, [Key(keys[i])]);
    } else {
      LemmaGetFailsBelow(y, p, [Key(keys[i])]);
    }
  }

  /** A key that cannot be found below `p` means the node at `p` is absent,
      or is a mapping without that key. */
  lemma LemmaMissingBelow(y: Y, p: Path, k: string)
    requires Get(y, p + [Key(k)]).Missing?
    ensures !Faulty(y, p)
    ensures Get(y, p).Found? ==> k !in Get(y, p).value.entries
  {
    LemmaGetConcat(y, p, [Key(k)]);
  }

  /** Deleting keys that are already gone leaves the document as it is. */
  lemma {:induction false} LemmaDropKeysAbsent(y: Y, p: Path, keys: seq<string>, f: Fault)
    requires forall i :: 0 <= i < |keys| ==> Get(y, p + [Key(keys[i])]).Missing?
    ensures DropKeys(y, p, keys, f) == Ok(y)
    decreases |keys|
  {
    if |keys| > 0 {
      LemmaMissingBelow(y, p, keys[0]);
      assert Delete(y, p, keys[0]) == Skipped;
      assert forall i :: 0 <= i < |keys[1..]| ==> keys[1..][i] == keys[i + 1];
      LemmaDropKeysAbsent(y, p, keys[1..], f);
    }
  }
}
