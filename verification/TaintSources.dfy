/**
  Where marks enter memory: tags that user code assigns to byte ranges, marks that it supplies, and
  bytes read from observed files.  Together with the analysis calls these are the actions of
  TaintWorld, and every run of the objects here is proved to be a run of that machine.
*/
module TaintSources {
  import opened Bitsets
  import opened TaintStores
  import opened Generators
  import opened TaintWorlds

  /** The store and the generator fit each other: every mark fits the sets. */
  ghost predicate Supplies(gen: TaintGenerator, store: TaintStore)
    reads gen, store, store.arrays
  {
    gen.Valid() && store.Valid() && gen.max <= store.width
  }

  /** The objects are in the state that the world describes. */
  ghost predicate Matches(gen: TaintGenerator, store: TaintStore, w: World)
    reads gen, store, store.arrays
  {
    Supplies(gen, store) && gen.Value() == w.gen && gen.issued == w.issued && store.state == w.state
  }

  /** Draws a mark for one byte and stores it, using s, which is empty before and after. */
  method DrawForByte(gen: TaintGenerator, store: TaintStore, s: Bitset, a: int, ghost w: World, ghost v: World)
    requires Matches(gen, store, w) && Loose(s, {}, store.arrays, store.width) && DrewForByte(w, v, a)
    modifies gen, s.bits, store`memTaintMap, store`cells, store`arrays, store`state
    ensures Matches(gen, store, v) && Loose(s, {}, store.arrays, store.width)
    ensures fresh(store.arrays - old(store.arrays))
  {
    var tag := gen.NextTaintMark();
    store.StoreMark(s, a, tag);
  }

  /** The first n bytes from buf have got their marks; s is the empty set in hand. */
  ghost predicate Painting(gen: TaintGenerator, store: TaintStore, s: Bitset, w: World, buf: int, n: nat)
    requires IsGen(w.gen)
    reads gen, store, store.arrays, s.bits
  {
    Matches(gen, store, Paint(w, buf, n)) && Loose(s, {}, store.arrays, store.width)
  }

  method PaintByte(gen: TaintGenerator, store: TaintStore, s: Bitset, a: int, ghost w: World, ghost buf: int,
                   ghost n: nat)
    requires IsGen(w.gen) && Painting(gen, store, s, w, buf, n) && a == buf + n
    modifies gen, s.bits, store`memTaintMap, store`cells, store`arrays, store`state
    ensures Painting(gen, store, s, w, buf, n + 1) && fresh(store.arrays - old(store.arrays))
  {
    PaintNext(w, buf, n);
    DrawForByte(gen, store, s, a, Paint(w, buf, n), Paint(w, buf, n + 1));
  }

  method PaintBytes(gen: TaintGenerator, store: TaintStore, s: Bitset, buf: int, n: nat, ghost w: World)
    requires IsGen(w.gen) && Painting(gen, store, s, w, buf, 0)
    modifies gen, s.bits, store`memTaintMap, store`cells, store`arrays, store`state
    ensures Painting(gen, store, s, w, buf, n) && fresh(store.arrays - old(store.arrays))
  {
    for i := 0 to n
      invariant Painting(gen, store, s, w, buf, i)
      invariant fresh(store.arrays - old(store.arrays))
    {
      PaintByte(gen, store, s, buf + i, w, buf, i);
    }
  }

  /** Reads n bytes into buf, with a scratch set of its own. */
  method PaintBuffer(gen: TaintGenerator, store: TaintStore, buf: int, n: nat, ghost w: World)
    requires IsGen(w.gen) && Matches(gen, store, w)
    modifies gen, store`memTaintMap, store`cells, store`arrays, store`state
    ensures Matches(gen, store, Paint(w, buf, n)) && fresh(store.arrays - old(store.arrays))
  {
    var s := new Bitset(store.width);
    PaintBytes(gen, store, s, buf, n, w);
  }

  class Sources {
    const gen: TaintGenerator
    const store: TaintStore
    var tagMap: map<nat, nat>

    ghost var world: World

    ghost predicate Valid()
      reads this, gen, store, store.arrays
    {
      && Matches(gen, store, world) && tagMap == world.tags
      && forall id :: id in tagMap ==> tagMap[id] < store.width
    }

    constructor (start: nat, max: nat, width: nat)
      requires start < max <= width
      ensures Valid() && world == Begin(Gen(start, start, max)) && store.width == width
      ensures fresh(gen) && fresh(store) && fresh(store.arrays)
    {
      gen := new TaintGenerator(start, max);
      store := new TaintStore(width);
      tagMap, world := map[], Begin(Gen(start, start, max));
    }

    /** An analysis call. */
    method Perform(c: Analysis)
      requires Valid()
      modifies this`world
      modifies store`regTaintMap, store`memTaintMap, store`controlTaintMap
      modifies store`cells, store`arrays, store`state, store.arrays
      ensures Valid() && world == Does(old(world), Analyse(c)) && fresh(store.arrays - old(store.arrays))
    {
      var ok := store.Perform(c);
      world := Does(world, Analyse(c));
    }

    /** Looks up the mark of an id, or draws one at its first use. */
    method MarkOf(id: nat) returns (mark: nat)
      requires Valid()
      modifies this`tagMap, this`world, gen
      ensures Valid() && world == Know(old(world), id) && mark == world.tags[id] && mark < store.width
    {
      if id !in tagMap {
        var drawn := gen.NextTaintMark();
        tagMap := tagMap[id := drawn];
      }
      world := Know(world, id);
      mark := tagMap[id];
    }

    method TaintRange(start: int, size: nat, mark: nat)
      requires Valid() && mark < store.width
      modifies this`world, store`memTaintMap, store`cells, store`arrays, store`state
      ensures Valid() && world == Tainted(old(world), start, size, mark) && fresh(store.arrays - old(store.arrays))
    {
      var ok := store.SetNewTaintForMemory(start, size, mark);
      world := Tainted(world, start, size, mark);
    }

    /** Gives the bytes of a range the mark of an id. */
    method AssignTagToByteRange(start: int, size: nat, id: nat)
      requires Valid()
      modifies this`tagMap, this`world, gen, store`memTaintMap, store`cells, store`arrays, store`state
      ensures Valid() && world == Does(old(world), TagRange(start, size, id)) && fresh(store.arrays - old(store.arrays))
    {
      var mark := MarkOf(id);
      TaintRange(start, size, mark);
    }

    method NextMark() returns (mark: nat)
      requires Valid()
      modifies this`world, gen
      ensures Valid() && world == Draws(old(world)) && mark == old(world.gen.current) && mark < store.width
    {
      mark := gen.NextTaintMark();
      world := Draws(world);
    }

    /** Taints a range with a mark of the user's choice, or with the next one if that is -1. */
    method SetNewTaintForMemory(start: int, size: nat, taintMark: int) returns (ok: bool)
      requires Valid()
      modifies this`world, gen, store`memTaintMap, store`cells, store`arrays, store`state
      ensures Valid() && fresh(store.arrays - old(store.arrays))
      ensures ok <==> taintMark == -1 || 0 <= taintMark < store.width
      ensures world == if ok then Does(old(world), Supply(start, size, taintMark)) else old(world)
    {
      ok := true;
      if taintMark == -1 {
        var mark := NextMark();
        TaintRange(start, size, mark);
      } else if 0 <= taintMark < store.width {
        world := world.(supplied := world.supplied + {taintMark});
        TaintRange(start, size, taintMark);
      } else {
        ok := false;
      }
    }

    method PaintRange(buf: int, n: nat)
      requires Valid()
      modifies this`world, gen, store`memTaintMap, store`cells, store`arrays, store`state
      ensures Valid() && world == Paint(old(world), buf, n) && fresh(store.arrays - old(store.arrays))
    {
      PaintKeepsTags(world, buf, n);
      PaintBuffer(gen, store, buf, n, world);
      world := Paint(world, buf, n);
    }

    /** A read of ret bytes into buf: every byte gets a mark of its own. */
    method ReadPerByte(buf: int, ret: int)
      requires Valid()
      modifies this`world, gen, store`memTaintMap, store`cells, store`arrays, store`state
      ensures Valid() && world == Does(old(world), ReadBytes(buf, ret)) && fresh(store.arrays - old(store.arrays))
    {
      if ret <= 0 {
        return;
      }
      PaintRange(buf, ret);
    }

    /** A read of ret bytes into buf: all of them get the same new mark. */
    method ReadPerRead(buf: int, ret: int)
      requires Valid()
      modifies this`world, gen, store`memTaintMap, store`cells, store`arrays, store`state
      ensures Valid() && world == Does(old(world), ReadOnce(buf, ret)) && fresh(store.arrays - old(store.arrays))
    {
      if ret <= 0 {
        return;
      }
      var mark := NextMark();
      TaintRange(buf, ret, mark);
    }

    method ClearTagsForByteRange(start: int)
      requires Valid()
      modifies this`world, store`memTaintMap, store`cells, store`state
      ensures Valid() && world == Does(old(world), Action.Untag(start))
    {
      var n := store.ClearTagsForByteRange(start);
      world := Does(world, Action.Untag(start));
    }

    method SetNewTaintStart()
      requires Valid()
      modifies this`world, gen`start
      ensures Valid() && world == Does(old(world), NewStart)
    {
      gen.SetNewTaintStart();
      world := Does(world, NewStart);
    }

    /** One action; false where the program aborts because of an illegal mark. */
    method Act(a: Action) returns (ok: bool)
      requires Valid()
      modifies this, gen
      modifies store`regTaintMap, store`memTaintMap, store`controlTaintMap
      modifies store`cells, store`arrays, store`state, store.arrays
      ensures Valid() && fresh(store.arrays - old(store.arrays)) && (ok <==> IsLegal(a, store.width))
      ensures world == if ok then Does(old(world), a) else old(world)
    {
      ok := true;
      match a {
        case Analyse(c) => Perform(c);
        case TagRange(start, size, id) => AssignTagToByteRange(start, size, id);
        case Supply(start, size, mark) => ok := SetNewTaintForMemory(start, size, mark);
        case ReadBytes(buf, ret) => ReadPerByte(buf, ret);
        case ReadOnce(buf, ret) => ReadPerRead(buf, ret);
        case Untag(start) => ClearTagsForByteRange(start);
        case NewStart => SetNewTaintStart();
      }
    }

    /** The first n actions have taken the objects from world w to where they are. */
    ghost predicate Followed(w: World, actions: seq<Action>, n: nat)
      requires n <= |actions| && IsGen(w.gen)
      reads this, gen, store, store.arrays
    {
      Valid() && world == DoAll(w, actions[..n]) && AllLegal(actions[..n], store.width)
    }

    method ActNext(actions: seq<Action>, n: nat, ghost w: World) returns (ok: bool)
      requires n < |actions| && IsGen(w.gen) && Followed(w, actions, n)
      modifies this, gen
      modifies store`regTaintMap, store`memTaintMap, store`controlTaintMap
      modifies store`cells, store`arrays, store`state, store.arrays
      ensures Followed(w, actions, if ok then n + 1 else n) && fresh(store.arrays - old(store.arrays))
      ensures ok <==> IsLegal(actions[n], store.width)
    {
      assert actions[..n + 1][..n] == actions[..n];
      ok := Act(actions[n]);
    }

    /** Every sequence of actions on the heap is a run of the machine, up to the first illegal mark. */
    method ActAll(actions: seq<Action>) returns (n: nat)
      requires Valid()
      modifies this, gen
      modifies store`regTaintMap, store`memTaintMap, store`controlTaintMap
      modifies store`cells, store`arrays, store`state, store.arrays
      ensures Valid() && n <= |actions| && world == DoAll(old(world), actions[..n])
      ensures AllLegal(actions[..n], store.width) && (n < |actions| ==> !IsLegal(actions[n], store.width))
    {
      ghost var w := world;
      n := 0;
      var ok := true;
      while n < |actions| && ok
        invariant n <= |actions| && Followed(w, actions, n) && fresh(store.arrays - old(store.arrays))
        invariant !ok ==> n < |actions| && !IsLegal(actions[n], store.width)
        decreases |actions| - n, ok
      {
        ok := ActNext(actions, n, w);
        if ok {
          n := n + 1;
        }
      }
    }
  }
}
