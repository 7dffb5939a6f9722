/** The interceptor over response bodies in the heap: containers are overwritten
    slot by slot, and each key is signed at most once. */
module MediaSigning {
  import opened Options
  import opened MediaTree
  import opened MediaHeap

  /** `collectMediaUrls`: grows a set on a walk that changes nothing; a container
      met twice adds nothing new. */
  method CollectMediaUrls(body: Json, resolve: Resolver, acc: set<string>, ghost region: set<Container>)
    returns (found: set<string>)
    requires ShapedJson(Snap(region), body)
    ensures found == acc + Collected(JsonView(Snap(region), body), resolve)
    decreases ReprOf(body)
  {
    hide Shaped, View, Views, Unshared, Collected, CollectedFrom, SlotView;
    found := acc;
    CollectedLeaf(body, resolve);
    match body
    case Str(s) =>
      if resolve(s).Some? { found := found + {s}; }
    case Other(_) =>
    case Ref(node) =>
      ghost var h := Snap(region);
      ghost var views := Views(h, node, |h[node]|);
      CollectedNode(h, node, resolve);
      var i := 0;
      while i < |node.slots|
        invariant 0 <= i <= |node.slots|
        invariant found == acc + CollectedFrom(views[..i], resolve)
      {
        CollectedSlot(h, node, i, resolve);
        found := CollectMediaUrls(node.slots[i], resolve, found, region);
        i := i + 1;
      }
      assert views[..i] == views;
  }

  lemma CollectedLeaf(v: Json, resolve: Resolver)
    ensures v.Str? ==> Collected(Text(v.text), resolve) == if resolve(v.text).Some? then {v.text} else {}
    ensures v.Other? ==> Collected(Leaf(v.id), resolve) == {}
  {
  }

  lemma CollectedNode(h: Heap, c: Container, resolve: Resolver)
    requires Shaped(h, c)
    ensures Collected(View(h, c), resolve) == CollectedFrom(Views(h, c, |h[c]|), resolve)
    ensures CollectedFrom(Views(h, c, |h[c]|)[..0], resolve) == {}
  {
  }

  lemma CollectedSlot(h: Heap, c: Container, i: nat, resolve: Resolver)
    requires Shaped(h, c) && i < |h[c]|
    ensures ShapedJson(h, h[c][i]) && ReprOf(h[c][i]) < c.Repr
    ensures var views := Views(h, c, |h[c]|);
      CollectedFrom(views[..i + 1], resolve)
        == CollectedFrom(views[..i], resolve) + Collected(JsonView(h, h[c][i]), resolve)
  {
    var views := Views(h, c, |h[c]|);
    assert views[..i + 1][..i] == views[..i] && views[..i + 1][i] == views[i];
    assert views[i] == SlotView(h, c, i) == JsonView(h, h[c][i]);
  }

  /** `replaceMediaUrls` on a container: a string found in the map is overwritten
      in its slot, any other slot is walked, shared containers each time they
      are met. */
  method ReplaceMediaUrls(node: Container, signed: map<string, string>, ghost region: set<Container>,
                          ghost unshared: bool)
    requires Shaped(Snap(region), node) && Mode(Snap(region), node, unshared, signed)
    modifies node.Repr
    ensures Shaped(Snap(region), node) && Advanced(old(Snap(region)), Snap(region), node.Repr, signed)
    ensures View(Snap(region), node) == Replaced(old(View(Snap(region), node)), signed)
    decreases node.Repr
  {
    hide Shaped, Mode, Progress, Advanced, View, Replaced, Unshared, Settled;
    ghost var h0 := Snap(region);
    ProgressStarts(h0, node, unshared, signed);
    var i := 0;
    while i < |node.slots|
      invariant |node.slots| == |h0[node]| && i <= |h0[node]|
      invariant Progress(h0, Snap(region), node, i, unshared, signed)
    {
      ghost var h := Snap(region);
      var el := node.slots[i];
      NextSlot(h0, h, node, i, unshared, signed);
      if el.Str? && el.text in signed {
        node.slots := node.slots[i := Str(signed[el.text])];
        assert Snap(region) == h[node := h[node][i := ReplacedJson(el, signed)]];
        ProgressText(h0, h, Snap(region), node, i, unshared, signed);
      } else if el.Ref? {
        ChildReady(h0, h, node, i, unshared, signed);
        ReplaceMediaUrls(el.node, signed, region, unshared);
        ProgressChild(h0, h, Snap(region), node, i, unshared, signed);
      } else {
        assert h[node][i := h[node][i]] == h[node];
        assert h == h[node := h[node][i := ReplacedJson(el, signed)]];
        ProgressText(h0, h, h, node, i, unshared, signed);
      }
      i := i + 1;
    }
    ProgressEnds(h0, Snap(region), node, unshared, signed);
  }

  lemma NextSlot(h0: Heap, h: Heap, c: Container, n: nat, unshared: bool, signed: map<string, string>)
    requires Shaped(h0, c) && Progress(h0, h, c, n, unshared, signed) && n < |h0[c]|
    ensures c in h && n < |h[c]| && h[c][n] == h0[c][n]
  {
    assert SlotPending(h0, h, h0[c][n], h[c][n], unshared);
  }

  lemma ProgressEnds(h0: Heap, h: Heap, c: Container, unshared: bool, signed: map<string, string>)
    requires Shaped(h0, c) && Progress(h0, h, c, |h0[c]|, unshared, signed)
    ensures Shaped(h, c) && Advanced(h0, h, c.Repr, signed) && View(h, c) == Replaced(View(h0, c), signed)
  {
    ProgressDone(h0, h, c, unshared, signed);
  }

  /** The storage port: signs keys, and remembers which it was asked for. */
  class FileStorage {
    const answer: Signer
    var calls: seq<Key>

    constructor (answer: Signer)
      ensures this.answer == answer && calls == []
    {
      this.answer, calls := answer, [];
    }

    method GetSignedUrl(key: Key) returns (url: Option<string>)
      modifies this
      ensures url == answer(key) && calls == old(calls) + [key]
    {
      calls := calls + [key];
      url := answer(key);
    }
  }

  predicate Once(keys: seq<Key>) { forall i, j :: 0 <= i < j < |keys| ==> keys[i] != keys[j] }

  ghost function KeysOf(originals: set<string>, resolve: Resolver): set<Key> {
    set s | s in originals && resolve(s).Some? :: resolve(s).value
  }

  class MediaSignInterceptor {
    const storage: FileStorage
    const resolve: Resolver

    constructor (storage: FileStorage, resolve: Resolver)
      ensures this.storage == storage && this.resolve == resolve
    {
      this.storage, this.resolve := storage, resolve;
    }

    /** Signs one key unless it has been signed before. */
    method SignKey(key: Key, keyCache: map<Key, Option<string>>, ghost asked: seq<Key>, ghost before: seq<Key>)
      returns (cache: map<Key, Option<string>>, ghost nowAsked: seq<Key>)
      requires CacheSound(keyCache, asked, storage.answer) && storage.calls == before + asked
      modifies storage
      ensures cache.Keys == keyCache.Keys + {key} && CacheSound(cache, nowAsked, storage.answer)
      ensures cache[key] == storage.answer(key)
      ensures storage.calls == before + nowAsked
    {
      cache, nowAsked := keyCache, asked;
      if key !in keyCache {
        var answer := storage.GetSignedUrl(key);
        cache, nowAsked := keyCache[key := answer], asked + [key];
      }
    }

    /** The entry of one link, signing its key if need be. */
    method SignUrl(url: string, keyCache: map<Key, Option<string>>, ghost asked: seq<Key>, ghost before: seq<Key>)
      returns (signedUrl: string, cache: map<Key, Option<string>>, ghost nowAsked: seq<Key>)
      requires CacheSound(keyCache, asked, storage.answer) && storage.calls == before + asked
      modifies storage
      ensures CacheSound(cache, nowAsked, storage.answer) && storage.calls == before + nowAsked
      ensures cache.Keys == keyCache.Keys + if resolve(url).Some? then {resolve(url).value} else {}
      ensures signedUrl == SignedUrl(url, resolve, storage.answer)
    {
      hide CacheSound;
      cache, nowAsked, signedUrl := keyCache, asked, url;
      var key := resolve(url);
      if key.Some? {
        cache, nowAsked := SignKey(key.value, keyCache, asked, before);
        if cache[key.value].Some? { signedUrl := cache[key.value].value; }
      }
    }

    /** Signs every link, asking the storage once for each distinct key. */
    method SignAll(originals: set<string>) returns (signed: map<string, string>, ghost asked: seq<Key>)
      modifies storage
      ensures signed == SignedMap(originals, resolve, storage.answer)
      ensures storage.calls == old(storage.calls) + asked && Once(asked)
      ensures forall key :: key in asked <==> key in KeysOf(originals, resolve)
    {
      hide KeysOf, Once, CacheSound, SignedMap, SignedUrl, Signing;
      var keyCache: map<Key, Option<string>> := map[];
      signed, asked := map[], [];
      ghost var before, done: set<string> := storage.calls, {};
      NothingSigned(resolve, storage.answer);
      var todo := originals;
      while todo != {}
        invariant done <= originals && todo == originals - done
        invariant Signing(done, signed, keyCache, asked, resolve, storage.answer)
        invariant storage.calls == before + asked
        decreases |todo|
      {
        var url :| url in todo;
        SigningCache(done, signed, keyCache, asked, resolve, storage.answer);
        ghost var cacheWas, askedWas := keyCache, asked;
        var signedUrl;
        signedUrl, keyCache, asked := SignUrl(url, keyCache, asked, before);
        OneMoreSigned(done, url, signed, cacheWas, askedWas, keyCache, asked, resolve, storage.answer);
        signed := signed[url := signedUrl];
        todo, done := todo - {url}, done + {url};
      }
      assert done == originals;
      SigningCache(done, signed, keyCache, asked, resolve, storage.answer);
    }

    /** The whole pass: the body becomes the structural map of what it was, and
        the storage is asked for each of its keys once. A body may share
        containers unless a URL its links are signed to is itself a link in it,
        signed to another. */
    method Transform(body: Json) returns (ghost asked: seq<Key>)
      requires ShapedJson(Snap(ReprOf(body)), body)
      requires body.Ref? ==>
        var h := Snap(body.node.Repr);
        Unshared(h, body.node)
        || Settled(SignedMap(Collected(View(h, body.node), resolve), resolve, storage.answer))
      modifies storage, ReprOf(body)
      ensures ShapedJson(Snap(ReprOf(body)), body)
      ensures body.Ref? ==>
        var was := old(JsonView(Snap(ReprOf(body)), body));
        JsonView(Snap(ReprOf(body)), body) == MapTexts(was, s => SignedUrl(s, resolve, storage.answer))
      ensures storage.calls == old(storage.calls) + asked && Once(asked)
      ensures forall key ::
        key in asked <==> key in KeysOf(Collected(old(JsonView(Snap(ReprOf(body)), body)), resolve), resolve)
    {
      hide KeysOf, SignedUrl, Collected, MapTexts, Shaped, Unshared, View, Settled;
      ghost var region := ReprOf(body);
      ghost var was := JsonView(Snap(region), body);
      asked := [];
      var originals := CollectMediaUrls(body, resolve, {}, region);
      assert originals == Collected(was, resolve);
      TransformIsOneMap(was, resolve, storage.answer);
      CollectedResolve(was, resolve);
      if originals == {} {
        NothingToReplace(was);
        NoKeys(resolve);
        return;
      }
      var signed;
      signed, asked := SignAll(originals);
      if body.Ref? {
        ghost var unshared := Unshared(Snap(region), body.node);
        ReplaceMediaUrls(body.node, signed, region, unshared);
      }
    }
  }

  /** Enough for any sharing: a signed URL of the body's keys, read as a link, is
      to its own key if to any. */
  lemma SignedMapIsSettled(originals: set<string>, resolve: Resolver, sign: Signer)
    requires forall s :: s in originals ==> resolve(s).Some?
    requires forall s :: s in originals ==>
      SignedUrl(s, resolve, sign) == s || resolve(SignedUrl(s, resolve, sign)) in {None, resolve(s)}
    ensures Settled(SignedMap(originals, resolve, sign))
  {
  }

  /** The cache holds the storage's answer for each key asked, each asked once. */
  ghost predicate CacheSound(cache: map<Key, Option<string>>, asked: seq<Key>, answer: Signer) {
    && (forall key :: key in cache ==> cache[key] == answer(key))
    && (forall key :: key in asked <==> key in cache)
    && Once(asked)
  }

  /** The state of signing with some of the links done. */
  ghost predicate Signing(done: set<string>, signed: map<string, string>, cache: map<Key, Option<string>>,
                          asked: seq<Key>, resolve: Resolver, answer: Signer) {
    && signed == SignedMap(done, resolve, answer)
    && cache.Keys == KeysOf(done, resolve) && CacheSound(cache, asked, answer)
  }

  lemma NothingSigned(resolve: Resolver, answer: Signer)
    ensures Signing({}, map[], map[], [], resolve, answer)
  {
  }

  lemma SigningCache(done: set<string>, signed: map<string, string>, cache: map<Key, Option<string>>, asked: seq<Key>,
                     resolve: Resolver, answer: Signer)
    requires Signing(done, signed, cache, asked, resolve, answer)
    ensures CacheSound(cache, asked, answer) && Once(asked) && signed == SignedMap(done, resolve, answer)
    ensures forall key :: key in asked <==> key in KeysOf(done, resolve)
  {
  }

  lemma OneMoreSigned(done: set<string>, url: string, signed: map<string, string>, cache: map<Key, Option<string>>,
                      asked: seq<Key>, nextCache: map<Key, Option<string>>, nextAsked: seq<Key>, resolve: Resolver,
                      answer: Signer)
    requires Signing(done, signed, cache, asked, resolve, answer) && CacheSound(nextCache, nextAsked, answer)
    requires nextCache.Keys == cache.Keys + if resolve(url).Some? then {resolve(url).value} else {}
    ensures Signing(done + {url}, signed[url := SignedUrl(url, resolve, answer)], nextCache, nextAsked, resolve, answer)
  {
    hide CacheSound;
    assert KeysOf(done + {url}, resolve) == nextCache.Keys;
  }

  lemma NoKeys(resolve: Resolver)
    ensures KeysOf({}, resolve) == {} && Once([])
  {
  }

  /** With nothing collected there is nothing to replace. */
  lemma NothingToReplace(t: Tree)
    ensures Replaced(t, map[]) == t
  {
    if t.Branch? { NothingToReplaceIn(t, t.children); }
  }

  lemma NothingToReplaceIn(t: Tree, ts: seq<Tree>)
    requires t.Branch? && |ts| <= |t.children| && ts == t.children[..|ts|]
    ensures ReplacedAll(ts, map[]) == ts
  {
    forall i | 0 <= i < |ts| ensures ReplacedSlot(ts[i], map[]) == ts[i] {
      assert ts[i] == t.children[i];
      NothingToReplace(ts[i]);
    }
  }
}
