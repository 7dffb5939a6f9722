/** Response bodies in the heap, and what replacing strings in their slots does to
    the values they stand for. Containers may be shared, but not contain themselves. */
module MediaHeap {
  import opened Options
  import opened MediaTree

  /** A value held in a body: a string, a leaf, or a reference to a container. */
  datatype Json = Str(text: string) | Other(id: int) | Ref(node: Container)

  /** An array, or an object with its keys: the values in order. */
  class Container {
    const keys: Option<seq<string>>
    ghost const Repr: set<Container>
    var slots: seq<Json>

    /** A container over existing values. */
    constructor (keys: Option<seq<string>>, slots: seq<Json>)
      ensures this.keys == keys && this.slots == slots
      ensures Repr == {this} + set i, o | 0 <= i < |slots| && slots[i].Ref? && o in slots[i].node.Repr :: o
    {
      this.keys, this.slots := keys, slots;
      Repr := {this} + set i, o | 0 <= i < |slots| && slots[i].Ref? && o in slots[i].node.Repr :: o;
    }
  }

  /** The slots of some containers at one moment. */
  type Heap = map<Container, seq<Json>>

  ghost function Snap(region: set<Container>): (h: Heap)
    reads region
    ensures h.Keys == region && forall o :: o in region ==> h[o] == o.slots
  {
    map o | o in region :: o.slots
  }

  /** What a container reaches is its own part of the heap, without a cycle. */
  ghost predicate Shaped(h: Heap, c: Container)
    ensures Shaped(h, c) ==> c in c.Repr && c in h && c.Repr <= h.Keys
    decreases c.Repr
  {
    && c in c.Repr && c.Repr <= h.Keys
    && forall i :: 0 <= i < |h[c]| && h[c][i].Ref? ==>
         c !in h[c][i].node.Repr && h[c][i].node.Repr <= c.Repr && Shaped(h, h[c][i].node)
  }

  /** A tree: no two slots reach a common container. */
  ghost predicate Unshared(h: Heap, c: Container)
    requires Shaped(h, c)
    decreases c.Repr
  {
    && (forall i :: 0 <= i < |h[c]| && h[c][i].Ref? ==> Unshared(h, h[c][i].node))
    && (forall i, j :: 0 <= i < j < |h[c]| && h[c][i].Ref? && h[c][j].Ref? ==>
          h[c][i].node.Repr !! h[c][j].node.Repr)
  }

  ghost predicate ShapedJson(h: Heap, v: Json) { v.Ref? ==> Shaped(h, v.node) }

  ghost function ReprOf(v: Json): set<Container> { if v.Ref? then v.node.Repr else {} }

  /** A container as a value. */
  ghost function View(h: Heap, c: Container): (t: Tree)
    requires Shaped(h, c)
    ensures t.Branch?
    decreases c.Repr, 2
  {
    Branch(c.keys, Views(h, c, |h[c]|))
  }

  ghost function Views(h: Heap, c: Container, n: nat): (ts: seq<Tree>)
    requires Shaped(h, c) && n <= |h[c]|
    ensures |ts| == n
    ensures forall i :: 0 <= i < n ==> ts[i] == SlotView(h, c, i)
    decreases c.Repr, 1, n
  {
    if n == 0 then [] else Views(h, c, n - 1) + [SlotView(h, c, n - 1)]
  }

  ghost function SlotView(h: Heap, c: Container, i: nat): Tree
    requires Shaped(h, c) && i < |h[c]|
    decreases c.Repr, 0
  {
    match h[c][i]
    case Str(s) => Text(s)
    case Other(id) => Leaf(id)
    case Ref(node) => View(h, node)
  }

  ghost function JsonView(h: Heap, v: Json): Tree
    requires ShapedJson(h, v)
  {
    match v
    case Str(s) => Text(s)
    case Other(id) => Leaf(id)
    case Ref(node) => View(h, node)
  }

  /** A container's value depends on its own part of the heap. */
  lemma {:induction false} ViewFrame(h: Heap, g: Heap, c: Container)
    requires Shaped(h, c) && c.Repr <= g.Keys && forall o :: o in c.Repr ==> g[o] == h[o]
    ensures Shaped(g, c) && View(g, c) == View(h, c)
    ensures Unshared(g, c) == Unshared(h, c)
    decreases c.Repr
  {
    forall i | 0 <= i < |h[c]| && h[c][i].Ref?
      ensures Shaped(g, h[c][i].node) && View(g, h[c][i].node) == View(h, h[c][i].node)
      ensures Unshared(g, h[c][i].node) == Unshared(h, h[c][i].node)
    {
      ViewFrame(h, g, h[c][i].node);
    }
    assert forall i :: 0 <= i < |h[c]| ==> SlotView(g, c, i) == SlotView(h, c, i);
    assert Views(g, c, |h[c]|) == Views(h, c, |h[c]|);
  }

  // ── Replacing ───────────────────────────────────────────────────────────

  /** What a slot's value becomes. */
  function ReplacedJson(v: Json, signed: map<string, string>): Json {
    if v.Str? && v.text in signed then Str(signed[v.text]) else v
  }

  /** A URL in the map is never replaced by yet another. */
  predicate Settled(signed: map<string, string>) {
    forall s :: s in signed && signed[s] in signed ==> signed[signed[s]] == signed[s]
  }

  lemma {:induction false} ReplacedTwice(t: Tree, signed: map<string, string>)
    requires Settled(signed)
    ensures Replaced(Replaced(t, signed), signed) == Replaced(t, signed)
    ensures ReplacedSlot(ReplacedSlot(t, signed), signed) == ReplacedSlot(t, signed)
    decreases t, 1
  {
    if t.Branch? { AllReplacedTwice(t, t.children, signed); }
  }

  lemma {:induction false} AllReplacedTwice(t: Tree, ts: seq<Tree>, signed: map<string, string>)
    requires Settled(signed) && t.Branch? && |ts| <= |t.children| && ts == t.children[..|ts|]
    ensures ReplacedAll(ReplacedAll(ts, signed), signed) == ReplacedAll(ts, signed)
    decreases t, 0
  {
    forall i | 0 <= i < |ts| ensures ReplacedSlot(ReplacedSlot(ts[i], signed), signed) == ReplacedSlot(ts[i], signed) {
      assert ts[i] == t.children[i];
      ReplacedTwice(ts[i], signed);
    }
  }

  /** Each slot of a container is as it was or has been replaced. */
  ghost predicate SlotsAdvanced(was: seq<Json>, now: seq<Json>, signed: map<string, string>) {
    && |now| == |was|
    && forall i :: 0 <= i < |was| ==> now[i] == was[i] || now[i] == ReplacedJson(was[i], signed)
  }

  ghost predicate Advanced(h: Heap, g: Heap, part: set<Container>, signed: map<string, string>) {
    && g.Keys == h.Keys
    && (forall o :: o in h && o !in part ==> g[o] == h[o])
    && (forall o :: o in h && o in part ==> SlotsAdvanced(h[o], g[o], signed))
  }

  /** Where some slots below a container have been replaced, it keeps its shape,
      and will read the same once all are; if all were, it has not changed. */
  lemma {:induction false} AdvancedView(h: Heap, g: Heap, part: set<Container>, c: Container,
                                        signed: map<string, string>)
    requires Settled(signed) && Shaped(h, c) && Advanced(h, g, part, signed)
    ensures Shaped(g, c) && Replaced(View(g, c), signed) == Replaced(View(h, c), signed)
    ensures Replaced(View(h, c), signed) == View(h, c) ==> View(g, c) == View(h, c)
    decreases c.Repr
  {
    forall i | 0 <= i < |h[c]| && h[c][i].Ref? ensures ChildAdvanced(h, g, h[c][i].node, signed) {
      AdvancedView(h, g, part, h[c][i].node, signed);
    }
    assert SlotsAdvanced(h[c], g[c], signed);
    ViewsAdvanced(h, g, c, signed);
  }

  ghost predicate ChildAdvanced(h: Heap, g: Heap, d: Container, signed: map<string, string>)
    requires Shaped(h, d)
  {
    && Shaped(g, d) && Replaced(View(g, d), signed) == Replaced(View(h, d), signed)
    && (Replaced(View(h, d), signed) == View(h, d) ==> View(g, d) == View(h, d))
  }

  lemma ShapeAdvanced(h: Heap, g: Heap, c: Container, signed: map<string, string>)
    requires Shaped(h, c) && c.Repr <= g.Keys && SlotsAdvanced(h[c], g[c], signed)
    requires forall i :: 0 <= i < |h[c]| && h[c][i].Ref? ==> ChildAdvanced(h, g, h[c][i].node, signed)
    ensures Shaped(g, c)
  {
    hide View, Unshared, Replaced;
    forall i | 0 <= i < |g[c]| && g[c][i].Ref? ensures h[c][i] == g[c][i] && Shaped(g, g[c][i].node) {
      assert ChildAdvanced(h, g, h[c][i].node, signed);
    }
  }

  /** Of one value and a later one: they end up alike, and a settled one stays. */
  predicate Alike(was: Tree, now: Tree, signed: map<string, string>) {
    && ReplacedSlot(now, signed) == ReplacedSlot(was, signed)
    && (ReplacedSlot(was, signed) == was ==> now == was)
  }

  lemma TextAlike(s: string, signed: map<string, string>)
    requires Settled(signed)
    ensures Alike(Text(s), Text(s), signed)
    ensures s in signed ==> Alike(Text(s), Text(signed[s]), signed)
  {
  }

  lemma SlotAlike(h: Heap, g: Heap, c: Container, i: nat, signed: map<string, string>)
    requires Settled(signed) && Shaped(h, c) && Shaped(g, c) && i < |h[c]| == |g[c]|
    requires g[c][i] == h[c][i] || g[c][i] == ReplacedJson(h[c][i], signed)
    requires h[c][i].Ref? ==> ChildAdvanced(h, g, h[c][i].node, signed)
    ensures Alike(SlotView(h, c, i), SlotView(g, c, i), signed)
  {
    match h[c][i]
    case Str(s) => TextAlike(s, signed);
    case Other(_) =>
    case Ref(node) => assert ChildAdvanced(h, g, node, signed);
  }

  lemma AllAlike(was: seq<Tree>, now: seq<Tree>, signed: map<string, string>)
    requires |now| == |was| && forall i :: 0 <= i < |was| ==> Alike(was[i], now[i], signed)
    ensures ReplacedAll(now, signed) == ReplacedAll(was, signed)
    ensures ReplacedAll(was, signed) == was ==> now == was
  {
    hide ReplacedAll, ReplacedSlot;
    assert forall i :: 0 <= i < |was| ==> ReplacedAll(now, signed)[i] == ReplacedAll(was, signed)[i];
    if ReplacedAll(was, signed) == was {
      assert forall i :: 0 <= i < |was| ==> ReplacedAll(was, signed)[i] == was[i];
    }
  }

  lemma ViewsAdvanced(h: Heap, g: Heap, c: Container, signed: map<string, string>)
    requires Settled(signed) && Shaped(h, c) && c.Repr <= g.Keys && SlotsAdvanced(h[c], g[c], signed)
    requires forall i :: 0 <= i < |h[c]| && h[c][i].Ref? ==> ChildAdvanced(h, g, h[c][i].node, signed)
    ensures Shaped(g, c) && Replaced(View(g, c), signed) == Replaced(View(h, c), signed)
    ensures Replaced(View(h, c), signed) == View(h, c) ==> View(g, c) == View(h, c)
  {
    hide Shaped, ChildAdvanced, SlotView, Alike, ReplacedJson, Views, Unshared, Settled;
    ShapeAdvanced(h, g, c, signed);
    var n := |h[c]|;
    assert |g[c]| == n;
    forall i | 0 <= i < n ensures Alike(Views(h, c, n)[i], Views(g, c, n)[i], signed) {
      SlotAlike(h, g, c, i, signed);
    }
    AllAlike(Views(h, c, n), Views(g, c, n), signed);
  }

  // ── One container, slot by slot ─────────────────────────────────────────

  /** A slot dealt with: its string replaced, or its container read as replaced. */
  ghost predicate SlotDone(h0: Heap, h: Heap, v0: Json, v: Json, signed: map<string, string>)
    requires ShapedJson(h0, v0)
  {
    && v == ReplacedJson(v0, signed)
    && (v0.Ref? ==> Shaped(h, v0.node) && View(h, v0.node) == Replaced(View(h0, v0.node), signed))
  }

  ghost predicate SlotPending(h0: Heap, h: Heap, v0: Json, v: Json, unshared: bool) {
    && v == v0
    && (unshared && v0.Ref? ==> forall o :: o in v0.node.Repr && o in h0 && o in h ==> h[o] == h0[o])
  }

  /** The walk of a container with its first `n` slots done. */
  ghost predicate Progress(h0: Heap, h: Heap, c: Container, n: nat, unshared: bool, signed: map<string, string>)
    requires Shaped(h0, c)
  {
    && Advanced(h0, h, c.Repr, signed)
    && n <= |h0[c]| == |h[c]|
    && (forall j :: 0 <= j < n ==> SlotDone(h0, h, h0[c][j], h[c][j], signed))
    && (forall j :: n <= j < |h0[c]| ==> SlotPending(h0, h, h0[c][j], h[c][j], unshared))
  }

  /** Either repeated replacing is harmless, or nothing is reached twice. */
  ghost predicate Mode(h: Heap, c: Container, unshared: bool, signed: map<string, string>)
    requires Shaped(h, c)
  {
    if unshared then Unshared(h, c) else Settled(signed)
  }

  lemma ProgressStarts(h: Heap, c: Container, unshared: bool, signed: map<string, string>)
    requires Shaped(h, c)
    ensures Progress(h, h, c, 0, unshared, signed)
  {
  }

  lemma ProgressDone(h0: Heap, h: Heap, c: Container, unshared: bool, signed: map<string, string>)
    requires Shaped(h0, c) && Progress(h0, h, c, |h0[c]|, unshared, signed)
    ensures Shaped(h, c) && View(h, c) == Replaced(View(h0, c), signed)
  {
    hide Unshared, Advanced;
    ShapeDone(h0, h, c, unshared, signed);
    var n := |h0[c]|;
    forall i | 0 <= i < n ensures Views(h, c, n)[i] == ReplacedSlot(Views(h0, c, n)[i], signed) {
      assert SlotDone(h0, h, h0[c][i], h[c][i], signed);
    }
    assert Views(h, c, n) == ReplacedAll(Views(h0, c, n), signed);
  }

  lemma ShapeDone(h0: Heap, h: Heap, c: Container, unshared: bool, signed: map<string, string>)
    requires Shaped(h0, c) && Progress(h0, h, c, |h0[c]|, unshared, signed)
    ensures Shaped(h, c)
  {
    hide Unshared, View, Replaced;
    forall i | 0 <= i < |h[c]| && h[c][i].Ref? ensures h[c][i] == h0[c][i] && Shaped(h, h[c][i].node) {
      assert SlotDone(h0, h, h0[c][i], h[c][i], signed);
    }
  }

  /** One slot of a container overwritten: containers below it are as they were. */
  ghost predicate OneSlot(h: Heap, g: Heap, c: Container, n: nat, signed: map<string, string>) {
    && c in h && n < |h[c]| && g == h[c := h[c][n := ReplacedJson(h[c][n], signed)]]
  }

  lemma TextAdvances(h0: Heap, h: Heap, g: Heap, c: Container, n: nat, signed: map<string, string>)
    requires c in c.Repr && c in h0 && Advanced(h0, h, c.Repr, signed) && OneSlot(h, g, c, n, signed)
    requires n < |h0[c]| && h[c][n] == h0[c][n]
    ensures Advanced(h0, g, c.Repr, signed)
  {
    assert SlotsAdvanced(h0[c], h[c], signed);
    assert SlotsAdvanced(h0[c], g[c], signed);
  }

  lemma TextKeepsDone(h0: Heap, h: Heap, g: Heap, c: Container, n: nat, j: nat, signed: map<string, string>)
    requires Shaped(h0, c) && |h0[c]| == (if c in h then |h[c]| else 0) && OneSlot(h, g, c, n, signed) && j < n
    requires SlotDone(h0, h, h0[c][j], h[c][j], signed)
    ensures SlotDone(h0, g, h0[c][j], g[c][j], signed)
  {
    hide View, Replaced, Unshared;
    if h0[c][j].Ref? { ViewFrame(h, g, h0[c][j].node); }
  }

  lemma TextKeepsPending(h0: Heap, h: Heap, g: Heap, c: Container, n: nat, j: nat, unshared: bool,
                         signed: map<string, string>)
    requires Shaped(h0, c) && |h0[c]| == (if c in h then |h[c]| else 0) && OneSlot(h, g, c, n, signed)
    requires n < j < |h0[c]| && SlotPending(h0, h, h0[c][j], h[c][j], unshared)
    ensures SlotPending(h0, g, h0[c][j], g[c][j], unshared)
  {
  }

  /** A slot without a container, replaced if its string is in the map. */
  lemma ProgressText(h0: Heap, h: Heap, g: Heap, c: Container, n: nat, unshared: bool, signed: map<string, string>)
    requires Shaped(h0, c) && Progress(h0, h, c, n, unshared, signed) && n < |h0[c]| && !h0[c][n].Ref?
    requires OneSlot(h, g, c, n, signed)
    ensures Progress(h0, g, c, n + 1, unshared, signed)
  {
    hide View, Unshared, Replaced, Advanced;
    assert SlotPending(h0, h, h0[c][n], h[c][n], unshared);
    TextAdvances(h0, h, g, c, n, signed);
    forall j | 0 <= j < n + 1 ensures SlotDone(h0, g, h0[c][j], g[c][j], signed) {
      if j < n { TextKeepsDone(h0, h, g, c, n, j, signed); }
    }
    forall j | n + 1 <= j < |h0[c]| ensures SlotPending(h0, g, h0[c][j], g[c][j], unshared) {
      TextKeepsPending(h0, h, g, c, n, j, unshared, signed);
    }
  }

  /** The child at the next slot can be walked, whether or not it was met before. */
  lemma ChildReady(h0: Heap, h: Heap, c: Container, n: nat, unshared: bool, signed: map<string, string>)
    requires Shaped(h0, c) && Progress(h0, h, c, n, unshared, signed) && n < |h0[c]| && h0[c][n].Ref?
    requires Mode(h0, c, unshared, signed)
    ensures var d := h0[c][n].node;
      && Shaped(h, d) && Mode(h, d, unshared, signed) && d.Repr <= c.Repr && c !in d.Repr
      && Replaced(View(h, d), signed) == Replaced(View(h0, d), signed)
  {
    var d := h0[c][n].node;
    assert SlotPending(h0, h, h0[c][n], h[c][n], unshared);
    if unshared { ViewFrame(h0, h, d); } else { AdvancedView(h0, h, c.Repr, d, signed); }
  }

  lemma AdvancedTwice(h0: Heap, h: Heap, g: Heap, c: Container, d: Container, unshared: bool,
                      signed: map<string, string>)
    requires Advanced(h0, h, c.Repr, signed) && Advanced(h, g, d.Repr, signed) && d.Repr <= c.Repr
    requires if unshared then forall o :: o in d.Repr && o in h0 ==> h[o] == h0[o] else Settled(signed)
    ensures Advanced(h0, g, c.Repr, signed)
  {
    forall o | o in h0 && o in c.Repr ensures SlotsAdvanced(h0[o], g[o], signed) {
      assert SlotsAdvanced(h0[o], h[o], signed);
      if o in d.Repr { assert SlotsAdvanced(h[o], g[o], signed); }
    }
  }

  lemma ProgressChild(h0: Heap, h: Heap, g: Heap, c: Container, n: nat, unshared: bool, signed: map<string, string>)
    requires Shaped(h0, c) && Progress(h0, h, c, n, unshared, signed) && n < |h0[c]| && h0[c][n].Ref?
    requires Mode(h0, c, unshared, signed)
    requires var d := h0[c][n].node;
      && Advanced(h, g, d.Repr, signed) && Shaped(h, d) && Shaped(g, d)
      && View(g, d) == Replaced(View(h, d), signed)
    ensures Progress(h0, g, c, n + 1, unshared, signed)
  {
    hide View, Replaced;
    var d := h0[c][n].node;
    ChildReady(h0, h, c, n, unshared, signed);
    assert SlotPending(h0, h, h0[c][n], h[c][n], unshared);
    AdvancedTwice(h0, h, g, c, d, unshared, signed);
    assert g[c] == h[c];
    forall j | 0 <= j < n + 1 ensures SlotDone(h0, g, h0[c][j], g[c][j], signed) {
      if j < n { DoneStays(h0, h, g, c, j, n, unshared, signed); }
    }
    forall j | n + 1 <= j < |h0[c]| ensures SlotPending(h0, g, h0[c][j], g[c][j], unshared) {
      assert SlotPending(h0, h, h0[c][j], h[c][j], unshared);
      if unshared && h0[c][j].Ref? { ApartUnshared(h0, c, n, j); }
    }
  }

  lemma ApartUnshared(h: Heap, c: Container, i: nat, j: nat)
    requires Shaped(h, c) && Unshared(h, c) && i < |h[c]| && j < |h[c]| && i != j && h[c][i].Ref? && h[c][j].Ref?
    ensures h[c][i].node.Repr !! h[c][j].node.Repr
  {
  }

  /** A slot done stays done while a later child is walked. */
  lemma DoneStays(h0: Heap, h: Heap, g: Heap, c: Container, j: nat, n: nat, unshared: bool, signed: map<string, string>)
    requires Shaped(h0, c) && j < n < |h0[c]| && h0[c][n].Ref? && c in h && c in g && |h[c]| == |h0[c]| && g[c] == h[c]
    requires SlotDone(h0, h, h0[c][j], h[c][j], signed) && Mode(h0, c, unshared, signed)
    requires Advanced(h, g, h0[c][n].node.Repr, signed)
    ensures SlotDone(h0, g, h0[c][j], g[c][j], signed)
  {
    hide View, Replaced;
    if h0[c][j].Ref? {
      var e := h0[c][j].node;
      if unshared {
        ApartUnshared(h0, c, j, n);
        ViewFrame(h, g, e);
      } else {
        ReplacedTwice(View(h0, e), signed);
        AdvancedView(h, g, h0[c][n].node.Repr, e, signed);
      }
    }
  }
}
