/** Presigning media links in a response body: what the collect, sign and replace
    passes do to a body as a tree. */
module MediaTree {
  import opened Options

  type Key = string

  /** A response body as a value: strings, leaves that are not walked (numbers,
      null, dates, buffers), and containers, with keys when objects. */
  datatype Tree =
    | Text(text: string)
    | Leaf(id: int)
    | Branch(keys: Option<seq<string>>, children: seq<Tree>)

  /** `resolveMediaKey`: the storage key of one of our links. */
  type Resolver = string -> Option<Key>

  /** The storage's answer for a key; None when signing fails. */
  type Signer = Key -> Option<string>

  // ── The three passes ────────────────────────────────────────────────────

  function Collected(t: Tree, resolve: Resolver): set<string> {
    match t
    case Text(s) => if resolve(s).Some? then {s} else {}
    case Leaf(_) => {}
    case Branch(_, children) => CollectedFrom(children, resolve)
  }

  function CollectedFrom(ts: seq<Tree>, resolve: Resolver): set<string> {
    if ts == [] then {} else CollectedFrom(ts[..|ts| - 1], resolve) + Collected(ts[|ts| - 1], resolve)
  }

  /** A link's signed URL, or the link itself when it is none of ours or
      signing its key fails. */
  function SignedUrl(s: string, resolve: Resolver, sign: Signer): string {
    match resolve(s)
    case None => s
    case Some(key) => match sign(key) case None => s case Some(url) => url
  }

  function SignedMap(originals: set<string>, resolve: Resolver, sign: Signer): map<string, string> {
    map s | s in originals :: SignedUrl(s, resolve, sign)
  }

  /** `replaceMediaUrls`: a string is replaced in its container, so the root,
      which has none, stays. */
  function Replaced(t: Tree, signed: map<string, string>): Tree
    decreases t, 0
  {
    match t
    case Branch(keys, children) => Branch(keys, ReplacedAll(children, signed))
    case _ => t
  }

  function ReplacedSlot(t: Tree, signed: map<string, string>): Tree
    decreases t, 1
  {
    if t.Text? && t.text in signed then Text(signed[t.text]) else Replaced(t, signed)
  }

  function ReplacedAll(ts: seq<Tree>, signed: map<string, string>): (rs: seq<Tree>)
    ensures |rs| == |ts|
    ensures forall i :: 0 <= i < |ts| ==> rs[i] == ReplacedSlot(ts[i], signed)
    decreases ts
  {
    if ts == [] then [] else ReplacedAll(ts[..|ts| - 1], signed) + [ReplacedSlot(ts[|ts| - 1], signed)]
  }

  function Transformed(t: Tree, resolve: Resolver, sign: Signer): Tree {
    Replaced(t, SignedMap(Collected(t, resolve), resolve, sign))
  }

  // ── One structural map ──────────────────────────────────────────────────

  /** Every string below the root mapped, the shape and all else kept. */
  function MapTexts(t: Tree, f: string -> string): Tree {
    match t
    case Text(s) => Text(f(s))
    case Leaf(_) => t
    case Branch(keys, children) => Branch(keys, MapAll(children, f))
  }

  function MapAll(ts: seq<Tree>, f: string -> string): seq<Tree> {
    if ts == [] then [] else MapAll(ts[..|ts| - 1], f) + [MapTexts(ts[|ts| - 1], f)]
  }

  predicate Agrees(signed: map<string, string>, texts: set<string>, resolve: Resolver, sign: Signer) {
    && texts <= signed.Keys
    && forall s :: s in signed ==> resolve(s).Some? && signed[s] == SignedUrl(s, resolve, sign)
  }

  lemma {:induction false} SlotsMap(t: Tree, signed: map<string, string>, resolve: Resolver, sign: Signer)
    requires Agrees(signed, Collected(t, resolve), resolve, sign)
    ensures ReplacedSlot(t, signed) == MapTexts(t, s => SignedUrl(s, resolve, sign))
    decreases t, 1
  {
    match t
    case Text(s) =>
    case Leaf(_) =>
    case Branch(_, children) => AllMap(t, children, signed, resolve, sign);
  }

  lemma {:induction false} AllMap(t: Tree, ts: seq<Tree>, signed: map<string, string>, resolve: Resolver, sign: Signer)
    requires t.Branch? && |ts| <= |t.children| && ts == t.children[..|ts|]
    requires Agrees(signed, CollectedFrom(ts, resolve), resolve, sign)
    ensures ReplacedAll(ts, signed) == MapAll(ts, s => SignedUrl(s, resolve, sign))
    decreases t, 0, |ts|
  {
    if ts != [] {
      AllMap(t, ts[..|ts| - 1], signed, resolve, sign);
      assert ts[|ts| - 1] == t.children[|ts| - 1];
      SlotsMap(ts[|ts| - 1], signed, resolve, sign);
    }
  }

  /** For every body, collecting, signing and replacing is one structural map:
      each string below the root that is a link of ours becomes the signed URL
      of its key, or stays when signing fails; nothing else changes. */
  lemma TransformIsOneMap(t: Tree, resolve: Resolver, sign: Signer)
    ensures Transformed(t, resolve, sign) == if t.Text? then t else MapTexts(t, s => SignedUrl(s, resolve, sign))
  {
    if t.Branch? {
      hide SignedUrl;
      var signed := SignedMap(Collected(t, resolve), resolve, sign);
      CollectedResolve(t, resolve);
      SlotsMap(t, signed, resolve, sign);
    }
  }

  lemma {:induction false} CollectedResolve(t: Tree, resolve: Resolver)
    ensures forall s :: s in Collected(t, resolve) ==> resolve(s).Some?
    decreases t, 1
  {
    if t.Branch? { CollectedAllResolve(t, t.children, resolve); }
  }

  lemma {:induction false} CollectedAllResolve(t: Tree, ts: seq<Tree>, resolve: Resolver)
    requires t.Branch? && |ts| <= |t.children| && ts == t.children[..|ts|]
    ensures forall s :: s in CollectedFrom(ts, resolve) ==> resolve(s).Some?
    decreases t, 0, |ts|
  {
    if ts != [] {
      CollectedAllResolve(t, ts[..|ts| - 1], resolve);
      assert ts[|ts| - 1] == t.children[|ts| - 1];
      CollectedResolve(ts[|ts| - 1], resolve);
    }
  }

  // ── Place by place ──────────────────────────────────────────────────────

  /** What stands at a path of slots below a value. */
  function At(t: Tree, path: seq<nat>): Option<Tree> {
    if path == [] then Some(t)
    else
      match t
      case Branch(_, children) => if path[0] < |children| then At(children[path[0]], path[1..]) else None
      case _ => None
  }

  lemma {:induction false} MapAllAt(ts: seq<Tree>, f: string -> string)
    ensures |MapAll(ts, f)| == |ts|
    ensures forall i :: 0 <= i < |ts| ==> MapAll(ts, f)[i] == MapTexts(ts[i], f)
  {
    if ts != [] { MapAllAt(ts[..|ts| - 1], f); }
  }

  lemma {:induction false} MapAt(t: Tree, f: string -> string, path: seq<nat>)
    ensures At(MapTexts(t, f), path) ==
      match At(t, path) case None => None case Some(x) => Some(MapTexts(x, f))
  {
    if path != [] && t.Branch? {
      MapAllAt(t.children, f);
      if path[0] < |t.children| { MapAt(t.children[path[0]], f, path[1..]); }
    }
  }

  /** Below the root, each place holds after the passes what it held before: the
      same leaf, a container of the same keys and size, or the same string,
      except that a link of ours whose key is signed reads as its signed URL. */
  lemma TransformedAt(t: Tree, resolve: Resolver, sign: Signer, path: seq<nat>)
    requires path != []
    ensures var was, now := At(t, path), At(Transformed(t, resolve, sign), path);
      match was
      case None => now == None
      case Some(Leaf(id)) => now == Some(Leaf(id))
      case Some(Branch(keys, children)) => now.Some? && now.value.Branch? && now.value.keys == keys
        && |now.value.children| == |children|
      case Some(Text(s)) =>
        if resolve(s).Some? && sign(resolve(s).value).Some? then now == Some(Text(sign(resolve(s).value).value))
        else now == was
  {
    TransformIsOneMap(t, resolve, sign);
    if t.Branch? {
      var f := s => SignedUrl(s, resolve, sign);
      MapAt(t, f, path);
      var was := At(t, path);
      if was.Some? && was.value.Branch? { MapAllAt(was.value.children, f); }
    }
  }

  /** The root, a string too, stays what it was. */
  lemma TransformedRoot(t: Tree, resolve: Resolver, sign: Signer)
    ensures var now := Transformed(t, resolve, sign);
      match t
      case Branch(keys, children) => now.Branch? && now.keys == keys && |now.children| == |children|
      case _ => now == t
  {
  }
}
