/** The already-parsed YAML document tree that the converter rewrites, and
    Python's subscription `y[k]` / `y[i]` on it, with the outcome the
    converter's `try` blocks distinguish: a value, a `KeyError`/`IndexError`
    (which every step catches), or a `TypeError` (which no step catches). */
module YamlTree {
  import opened Wrappers

  /** One YAML node. Mappings have string keys; a sequence is a Python list.
      `YScalar` is any other leaf (number, boolean, timestamp), carried as
      the text Python's `str()` renders for it and its truth value. */
  datatype Y =
    | YMap(entries: map<string, Y>)
    | YSeq(items: seq<Y>)
    | YStr(s: string)
    | YNull
    | YScalar(shown: string, truth: bool)

  /** One subscription: `[name]` or `[index]`. */
  datatype Seg = Key(name: string) | At(index: nat)

  type Path = seq<Seg>

  /** What a chain of subscriptions yields in Python. `Missing` is a
      `KeyError` or an `IndexError`; `Clash` is a `TypeError`. */
  datatype Lookup = Found(value: Y) | Missing | Clash

  /** Python truthiness, as in `if manifest and ...`. */
  predicate Truthy(y: Y) {
    match y
    case YMap(m) => m != map[]
    case YSeq(xs) => xs != []
    case YStr(t) => t != []
    case YNull => false
    case YScalar(_, b) => b
  }

  /** The text an f-string splices in for a value. A string is spliced as
      it is and `None` as `None`. For a mapping or a list Python splices its
      `repr`, which depends on key order the model does not keep; a fixed
      stand-in text takes its place. */
  function Render(y: Y): (r: string)
    ensures y.YStr? ==> r == y.s
    ensures y.YNull? ==> r == "None"
  {
    match y
    case YStr(t) => t
    case YScalar(t, _) => t
    case YNull => "None"
    case YMap(_) => "{...}"
    case YSeq(_) => "[...]"
  }

  /** One subscription. A string index into a mapping is looked up; an
      integer index into a mapping is a `KeyError` (keys are strings); an
      integer index into a list or a string is bounds-checked; everything
      else is a `TypeError`. */
  function Sub(y: Y, g: Seg): (r: Lookup)
    ensures r.Found? && g.Key? ==> y.YMap? && g.name in y.entries && r.value == y.entries[g.name]
    ensures r.Clash? <==> (g.Key? && !y.YMap?) || (g.At? && (y.YNull? || y.YScalar?))
  {
    match g
    case Key(k) =>
      (match y
       case YMap(m) => if k in m then Found(m[k]) else Missing
       case _ => Clash)
    case At(i) =>
      (match y
       case YSeq(xs) => if i < |xs| then Found(xs[i]) else Missing
       case YStr(t) => if i < |t| then Found(YStr([t[i]])) else Missing
       case YMap(_) => Missing
       case _ => Clash)
  }

  /** A chain of subscriptions, stopping at the first exception. */
  function Get(y: Y, p: Path): Lookup
    decreases |p|
  {
    if |p| == 0 then Found(y)
    else
      match Sub(y, p[0])
      case Found(c) => Get(c, p[1..])
      case Missing => Missing
      case Clash => Clash
  }

  /** The path runs through mappings and lists only, so the node it ends at
      can be replaced in place. */
  predicate Within(y: Y, p: Path)
    decreases |p|
  {
    |p| == 0 ||
    match p[0]
    case Key(k) => y.YMap? && k in y.entries && Within(y.entries[k], p[1..])
    case At(i) => y.YSeq? && i < |y.items| && Within(y.items[i], p[1..])
  }

  /** The tree with the node at `p` replaced by `v`: the effect of mutating
      that node in place when no other node shares it. */
  function Put(y: Y, p: Path, v: Y): Y
    requires Within(y, p)
    decreases |p|
  {
    if |p| == 0 then v
    else
      match p[0]
      case Key(k) => YMap(y.entries[k := Put(y.entries[k], p[1..], v)])
      case At(i) => YSeq(y.items[i := Put(y.items[i], p[1..], v)])
  }

  /** Neither path is a prefix of the other: they address disjoint parts. */
  predicate Apart(p: Path, q: Path)
    decreases |p|
  {
    |p| > 0 && |q| > 0 && (p[0] != q[0] || Apart(p[1..], q[1..]))
  }

  /** Paths that part at their second segment are apart. */
  lemma LemmaApartSecond(p: Path, q: Path)
    requires |p| > 1 && |q| > 1 && p[1] != q[1]
    ensures Apart(p, q)
  {
    assert p[1..][0] == p[1] && q[1..][0] == q[1];
  }

  /** Extending a path keeps it apart. */
  lemma {:induction false} LemmaApartExtend(p: Path, g: Seg, q: Path)
    requires Apart(p, q)
    ensures Apart(p + [g], q)
    decreases |p|
  {
    assert (p + [g])[0] == p[0];
    if p[0] == q[0] {
      assert (p + [g])[1..] == p[1..] + [g];
      LemmaApartExtend(p[1..], g, q[1..]);
    }
  }

  /** A path that runs through `p` and leaves by a segment other than `g`
      is apart from `p + [g]`. */
  lemma {:induction false} LemmaApartAt(p: Path, g: Seg, q: Path)
    requires |q| > |p| && q[..|p|] == p && q[|p|] != g
    ensures Apart(p + [g], q)
    decreases |p|
  {
    if |p| == 0 {
      assert q[0] != g;
    } else {
      assert q[0] == p[0];
      assert (p + [g])[1..] == p[1..] + [g];
      assert q[1..][..|p| - 1] == p[1..];
      LemmaApartAt(p[1..], g, q[1..]);
    }
  }

  /** `q` is apart from every path in `touched`. */
  predicate Clear(touched: seq<Path>, q: Path) {
    forall i :: 0 <= i < |touched| ==> Apart(touched[i], q)
  }

  /** Every lookup clear of `touched` sees the same value in `y` and `y'`:
      the change from `y` to `y'` happened at or below the touched paths. */
  ghost predicate Frame(y: Y, y': Y, touched: seq<Path>) {
    forall q {:trigger Named(q)} :: Clear(touched, q) ==> Get(y', q) == Get(y, q)
  }

  /** Always true: it exists only as the trigger of the quantifier in
      `Frame`, so that a frame is applied to a lookup only where a proof
      names it (through `LemmaFrameKeeps`) and stays quiet elsewhere. */
  predicate Named(q: Path) {
    true
  }

  /** A frame applied to one lookup. */
  lemma LemmaFrameKeeps(y: Y, y': Y, touched: seq<Path>, q: Path)
    requires Frame(y, y', touched) && Clear(touched, q)
    ensures Get(y', q) == Get(y, q)
  {
    assert Named(q);
  }

  /** A step that changes one path keeps every lookup apart from it. */
  lemma LemmaKeepOne(y: Y, y': Y, p: Path, q: Path)
    requires Frame(y, y', [p]) && Apart(p, q)
    ensures Get(y', q) == Get(y, q)
  {
    assert Apart([p][0], q);
    LemmaFrameKeeps(y, y', [p], q);
  }

  /** Frames compose: two changes touch the union of their paths. */
  lemma LemmaFrameChain(a: Y, b: Y, c: Y, t1: seq<Path>, t2: seq<Path>)
    requires Frame(a, b, t1) && Frame(b, c, t2)
    ensures Frame(a, c, t1 + t2)
  {
    forall q | Clear(t1 + t2, q)
      ensures Get(c, q) == Get(a, q)
    {
      forall i | 0 <= i < |t1| ensures Apart(t1[i], q) {
        assert (t1 + t2)[i] == t1[i];
      }
      forall i | 0 <= i < |t2| ensures Apart(t2[i], q) {
        assert (t1 + t2)[|t1| + i] == t2[i];
      }
      LemmaFrameKeeps(a, b, t1, q);
      LemmaFrameKeeps(b, c, t2, q);
    }
  }

  lemma {:induction false} LemmaWithinFound(y: Y, p: Path)
    requires Within(y, p)
    ensures Get(y, p).Found?
    decreases |p|
  {
    if |p| > 0 {
      match p[0]
      case Key(k) => LemmaWithinFound(y.entries[k], p[1..]);
      case At(i) => LemmaWithinFound(y.items[i], p[1..]);
    }
  }

  /** Indexing into a string only ever yields strings. */
  lemma {:induction false} LemmaStringStaysString(t: string, p: Path)
    ensures Get(YStr(t), p).Found? ==> Get(YStr(t), p).value.YStr?
    decreases |p|
  {
    if |p| > 0 {
      match p[0]
      case Key(_) =>
      case At(i) =>
        if i < |t| {
          LemmaStringStaysString([t[i]], p[1..]);
        }
    }
  }

  /** A lookup that ends at a mapping went through mappings and lists only. */
  lemma {:induction false} LemmaFoundMapWithin(y: Y, p: Path)
    requires Get(y, p).Found? && Get(y, p).value.YMap?
    ensures Within(y, p)
    decreases |p|
  {
    if |p| > 0 {
      match p[0]
      case Key(k) => LemmaFoundMapWithin(y.entries[k], p[1..]);
      case At(i) =>
        match y
        case YSeq(xs) => LemmaFoundMapWithin(xs[i], p[1..]);
        case YStr(t) => LemmaStringStaysString([t[i]], p[1..]);
    }
  }

  /** A lookup along `p + r` is the lookup along `p` followed by `r`. */
  lemma {:induction false} LemmaGetConcat(y: Y, p: Path, r: Path)
    ensures Get(y, p + r) == (if Get(y, p).Found? then Get(Get(y, p).value, r) else Get(y, p))
    decreases |p|
  {
    if |p| == 0 {
      assert p + r == r;
    } else {
      assert (p + r)[0] == p[0];
      assert (p + r)[1..] == p[1..] + r;
      match Sub(y, p[0])
      case Found(c) => LemmaGetConcat(c, p[1..], r);
      case Missing =>
      case Clash =>
    }
  }

  /** Reading back what was put. */
  lemma {:induction false} LemmaGetPut(y: Y, p: Path, v: Y)
    requires Within(y, p)
    ensures Get(Put(y, p, v), p) == Found(v)
    decreases |p|
  {
    if |p| > 0 {
      match p[0]
      case Key(k) => LemmaGetPut(y.entries[k], p[1..], v);
      case At(i) => LemmaGetPut(y.items[i], p[1..], v);
    }
  }

  /** Reading below the node that was put reads inside the new node. */
  lemma {:induction false} LemmaGetPutBelow(y: Y, p: Path, v: Y, r: Path)
    requires Within(y, p)
    ensures Get(Put(y, p, v), p + r) == Get(v, r)
    decreases |p|
  {
    LemmaGetConcat(Put(y, p, v), p, r);
    LemmaGetPut(y, p, v);
  }

  /** Putting at `p` leaves every lookup apart from `p` alone. */
  lemma {:induction false} LemmaGetPutApart(y: Y, p: Path, v: Y, q: Path)
    requires Within(y, p) && Apart(p, q)
    ensures Get(Put(y, p, v), q) == Get(y, q)
    decreases |p|
  {
    var y' := Put(y, p, v);
    if p[0] == q[0] {
      match p[0]
      case Key(k) => LemmaGetPutApart(y.entries[k], p[1..], v, q[1..]);
      case At(i) => LemmaGetPutApart(y.items[i], p[1..], v, q[1..]);
    } else {
      assert Sub(y', q[0]) == Sub(y, q[0]);
    }
  }

  lemma LemmaPutFrame(y: Y, p: Path, v: Y)
    requires Within(y, p)
    ensures Frame(y, Put(y, p, v), [p])
  {
    forall q | Clear([p], q)
      ensures Get(Put(y, p, v), q) == Get(y, q)
    {
      assert Apart([p][0], q);
      LemmaGetPutApart(y, p, v, q);
    }
  }

  /** Putting back the node that is already there changes nothing. */
  lemma {:induction false} LemmaPutSelf(y: Y, p: Path)
    requires Within(y, p)
    ensures Get(y, p).Found? && Put(y, p, Get(y, p).value) == y
    decreases |p|
  {
    LemmaWithinFound(y, p);
    if |p| > 0 {
      match p[0]
      case Key(k) =>
        LemmaPutSelf(y.entries[k], p[1..]);
      case At(i) =>
        LemmaPutSelf(y.items[i], p[1..]);
    }
  }

  /** A lookup that already fails before `p` ends fails the same way below it. */
  lemma LemmaGetFailsBelow(y: Y, p: Path, r: Path)
    requires !Get(y, p).Found?
    ensures Get(y, p + r) == Get(y, p)
  {
    LemmaGetConcat(y, p, r);
  }
}
