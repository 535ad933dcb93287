/**
  Everything that changes taint, as one machine: the analysis calls, tagging and untagging, marks
  that the user supplies, reads from observed files, and moving the generator's start.
*/
module TaintWorlds {
  import opened TaintState
  import opened TaintRuns
  import opened Generators

  /**
    The store, the generator and the marks of the ids used so far.  The other fields record how it
    came to this: what was asked of the generator, the marks it issued, which of them an id got,
    and the marks that the user supplied.
  */
  datatype World = World(
    state: State,
    gen: Gen,
    tags: map<nat, nat>,
    ops: seq<Op>,
    issued: seq<nat>,
    at: map<nat, nat>,
    supplied: Marks)

  /** The calls that handlers and branches make; none of them brings in a mark. */
  type Analysis = c: Call | !c.NewTaint? witness ClearSet(Dest)

  datatype Action =
    | Analyse(call: Analysis)
    | TagRange(start: int, size: nat, id: nat)
    | Supply(start: int, size: nat, taintMark: int)
    | ReadBytes(buf: int, ret: int)
    | ReadOnce(buf: int, ret: int)
    | Untag(start: int)
    | NewStart

  ghost function Begin(g: Gen): World {
    World(Start(), g, map[], [], [], map[], {})
  }

  /** The program aborts on a mark that is neither -1 nor of the sets' width. */
  predicate IsLegal(a: Action, width: nat) {
    a.Supply? ==> -1 <= a.taintMark < width
  }

  // ------------------------------------------------------ the actions

  ghost function Draws(w: World): (v: World)
    requires IsGen(w.gen)
    ensures IsGen(v.gen)
  {
    w.(gen := Succ(w.gen), ops := w.ops + [Draw], issued := w.issued + [w.gen.current])
  }

  ghost function Tainted(w: World, start: int, size: nat, mark: nat): World {
    w.(state := Step(w.state, NewTaint(start, size, mark)))
  }

  /** The mark of an id, which gets one if it has none yet. */
  ghost function Know(w: World, id: nat): (v: World)
    requires IsGen(w.gen)
    ensures IsGen(v.gen) && id in v.tags
  {
    if id in w.tags then w else Draws(w).(tags := w.tags[id := w.gen.current], at := w.at[id := |w.issued|])
  }

  /** One byte after another gets a mark of its own. */
  ghost function Paint(w: World, buf: int, n: nat): (v: World)
    requires IsGen(w.gen)
    ensures IsGen(v.gen)
  {
    if n == 0 then w
    else
      var before := Paint(w, buf, n - 1);
      Draws(before).(state := before.state[InMem(buf + n - 1) := {before.gen.current}])
  }

  /** v is what w becomes when byte a gets the next mark. */
  ghost predicate DrewForByte(w: World, v: World, a: int) {
    && IsGen(w.gen) && v.gen == Succ(w.gen) && v.issued == w.issued + [w.gen.current]
    && v.state == w.state[InMem(a) := {w.gen.current}]
  }

  lemma PaintNext(w: World, buf: int, n: nat)
    requires IsGen(w.gen)
    ensures DrewForByte(Paint(w, buf, n), Paint(w, buf, n + 1), buf + n)
  {
  }

  ghost function Does(w: World, a: Action): (v: World)
    requires IsGen(w.gen)
    ensures IsGen(v.gen)
  {
    match a
    case Analyse(c) => w.(state := Step(w.state, c))
    case TagRange(start, size, id) => Tainted(Know(w, id), start, size, Know(w, id).tags[id])
    case Supply(start, size, mark) =>
      if mark == -1 then Tainted(Draws(w), start, size, w.gen.current)
      else if mark < 0 then w
      else Tainted(w.(supplied := w.supplied + {mark}), start, size, mark)
    case ReadBytes(buf, ret) => if ret <= 0 then w else Paint(w, buf, ret)
    case ReadOnce(buf, ret) => if ret <= 0 then w else Tainted(Draws(w), buf, ret, w.gen.current)
    case Untag(start) => w.(state := w.state - Bytes(start, TagRun(w.state, start)))
    case NewStart => w.(gen := Restarted(w.gen), ops := w.ops + [Restart])
  }

  ghost function DoAll(w: World, actions: seq<Action>): (v: World)
    requires IsGen(w.gen)
    ensures IsGen(v.gen)
  {
    if actions == [] then w else Does(DoAll(w, actions[..|actions| - 1]), actions[|actions| - 1])
  }

  // ------------------------------------------------------ what every run keeps

  /** Marks that came from the generator or from the user. */
  ghost function Origins(w: World): Marks {
    w.supplied + set m | m in w.issued
  }

  /** Every id got a draw of its own, and the mark that was issued then. */
  ghost predicate IdsFit(tags: map<nat, nat>, at: map<nat, nat>, issued: seq<nat>) {
    && at.Keys == tags.Keys
    && (forall id {:trigger tags[id]} {:trigger at[id]} :: id in tags ==>
          at[id] < |issued| && tags[id] == issued[at[id]])
    && (forall id, other :: id in at && other in at && id != other ==> at[id] != at[other])
  }

  /** The records tell the truth about a world that began with generator g. */
  ghost predicate IsWorld(g: Gen, w: World) {
    && IsGen(g) && w.gen == RunOps(g, w.ops) && w.issued == DrawnInOrder(g, w.ops)
    && IdsFit(w.tags, w.at, w.issued)
  }

  ghost predicate Grounded(w: World) {
    AllMarks(w.state) <= Origins(w)
  }

  lemma BeginIsWorld(g: Gen)
    requires IsGen(g)
    ensures IsWorld(g, Begin(g)) && Grounded(Begin(g))
  {
  }

  lemma DrawKeeps(g: Gen, w: World)
    requires IsWorld(g, w)
    ensures IsWorld(g, Draws(w)) && Origins(w) + {w.gen.current} == Origins(Draws(w))
  {
    OneMoreOp(g, w.ops, Draw);
  }

  lemma NewIdFits(tags: map<nat, nat>, at: map<nat, nat>, issued: seq<nat>, id: nat, mark: nat)
    requires IdsFit(tags, at, issued) && id !in tags
    ensures IdsFit(tags[id := mark], at[id := |issued|], issued + [mark])
  {
    var later := issued + [mark];
    assert forall i :: i in tags ==> at[i] < |issued| && tags[i] == later[at[i]];
  }

  lemma KnowKeeps(g: Gen, w: World, id: nat)
    requires IsWorld(g, w)
    ensures IsWorld(g, Know(w, id)) && Origins(w) <= Origins(Know(w, id))
    ensures Know(w, id).tags[id] in Origins(Know(w, id))
    ensures Know(w, id).state == w.state
  {
    if id !in w.tags {
      DrawKeeps(g, w);
      NewIdFits(w.tags, w.at, w.issued, id, w.gen.current);
    } else {
      assert w.tags[id] == w.issued[w.at[id]];
    }
  }

  lemma TaintKeeps(g: Gen, w: World, start: int, size: nat, mark: nat)
    requires IsWorld(g, w) && Grounded(w) && mark in Origins(w)
    ensures IsWorld(g, Tainted(w, start, size, mark)) && Grounded(Tainted(w, start, size, mark))
  {
    StepMarks(w.state, NewTaint(start, size, mark));
  }

  lemma DrawKeepsGrounded(g: Gen, w: World)
    requires IsWorld(g, w) && Grounded(w)
    ensures Grounded(Draws(w)) && w.gen.current in Origins(Draws(w))
  {
    DrawKeeps(g, w);
  }

  lemma {:induction false} PaintKeeps(g: Gen, w: World, buf: int, n: nat)
    requires IsWorld(g, w) && Grounded(w)
    ensures IsWorld(g, Paint(w, buf, n)) && Grounded(Paint(w, buf, n))
  {
    if n > 0 {
      PaintKeeps(g, w, buf, n - 1);
      var v := Paint(w, buf, n - 1);
      DrawKeeps(g, v);
      DrawKeepsGrounded(g, v);
      OneByteMarks(v.state, InMem(buf + n - 1), {v.gen.current});
    }
  }

  lemma OneByteMarks(s: State, p: Place, v: Marks)
    ensures AllMarks(s[p := v]) <= AllMarks(s) + v
  {
    AssignOne(s, {}, p, v);
    AssignedMarks(s, {p}, v);
  }

  lemma UntagKeeps(s: State, places: set<Place>)
    ensures AllMarks(s - places) <= AllMarks(s)
  {
  }

  lemma ActionKeeps(g: Gen, w: World, a: Action)
    requires IsWorld(g, w) && Grounded(w)
    ensures IsWorld(g, Does(w, a)) && Grounded(Does(w, a))
  {
    match a
    case Analyse(c) => StepMarks(w.state, c);
    case TagRange(start, size, id) =>
      KnowKeeps(g, w, id);
      TaintKeeps(g, Know(w, id), start, size, Know(w, id).tags[id]);
    case Supply(start, size, mark) =>
      if mark == -1 {
        DrawKeeps(g, w);
        DrawKeepsGrounded(g, w);
        TaintKeeps(g, Draws(w), start, size, w.gen.current);
      } else if mark >= 0 {
        TaintKeeps(g, w.(supplied := w.supplied + {mark}), start, size, mark);
      }
    case ReadBytes(buf, ret) =>
      if ret > 0 {
        PaintKeeps(g, w, buf, ret);
      }
    case ReadOnce(buf, ret) =>
      if ret > 0 {
        DrawKeeps(g, w);
        DrawKeepsGrounded(g, w);
        TaintKeeps(g, Draws(w), buf, ret, w.gen.current);
      }
    case Untag(start) => UntagKeeps(w.state, Bytes(start, TagRun(w.state, start)));
    case NewStart => OneMoreOp(g, w.ops, Restart);
  }

  lemma {:induction false} RunKeeps(g: Gen, w: World, actions: seq<Action>)
    requires IsWorld(g, w) && Grounded(w)
    ensures IsWorld(g, DoAll(w, actions)) && Grounded(DoAll(w, actions))
    decreases |actions|
  {
    if actions != [] {
      var n := |actions| - 1;
      RunKeeps(g, w, actions[..n]);
      ActionKeeps(g, DoAll(w, actions[..n]), actions[n]);
    }
  }

  ghost predicate AllLegal(actions: seq<Action>, width: nat) {
    forall i :: 0 <= i < |actions| ==> IsLegal(actions[i], width)
  }

  /** The marks that the user chose in these actions. */
  ghost function Chosen(actions: seq<Action>): Marks {
    set i | 0 <= i < |actions| && actions[i].Supply? && actions[i].taintMark >= 0 :: actions[i].taintMark
  }

  lemma PaintSupplies(w: World, buf: int, n: nat)
    requires IsGen(w.gen)
    ensures Paint(w, buf, n).supplied == w.supplied
  {
  }

  lemma ActionSupplies(w: World, a: Action)
    requires IsGen(w.gen)
    ensures Does(w, a).supplied == w.supplied + if a.Supply? && a.taintMark >= 0 then {a.taintMark} else {}
  {
    if a.ReadBytes? && a.ret > 0 {
      PaintSupplies(w, a.buf, a.ret);
    }
  }

  lemma ChosenGrows(actions: seq<Action>, n: nat)
    requires n == |actions| - 1
    ensures Chosen(actions) ==
            Chosen(actions[..n]) +
            if actions[n].Supply? && actions[n].taintMark >= 0 then {actions[n].taintMark} else {}
  {
    forall m | m in Chosen(actions[..n])
      ensures m in Chosen(actions)
    {
      var i :| 0 <= i < n && actions[..n][i].Supply? && actions[..n][i].taintMark == m;
      assert actions[i].taintMark == m;
    }
    forall m | m in Chosen(actions)
      ensures m in Chosen(actions[..n]) || (actions[n].Supply? && actions[n].taintMark == m)
    {
      var i :| 0 <= i < |actions| && actions[i].Supply? && actions[i].taintMark >= 0 && actions[i].taintMark == m;
      assert i < n ==> actions[..n][i] == actions[i];
    }
  }

  lemma {:induction false} SuppliedAreChosen(w: World, actions: seq<Action>)
    requires IsGen(w.gen)
    ensures DoAll(w, actions).supplied == w.supplied + Chosen(actions)
    decreases |actions|
  {
    if actions != [] {
      var n := |actions| - 1;
      SuppliedAreChosen(w, actions[..n]);
      ActionSupplies(DoAll(w, actions[..n]), actions[n]);
      ChosenGrows(actions, n);
    }
  }

  /**
    Over every sequence of actions: each mark found anywhere was issued by the generator, as an
    answer to one of the draws it was asked for, or was chosen by the user; and it fits the sets.
  */
  lemma NoMarkFromNowhere(g: Gen, actions: seq<Action>, width: nat)
    requires IsGen(g) && g.max <= width && AllLegal(actions, width)
    ensures
      var w := DoAll(Begin(g), actions);
      && w.issued == DrawnInOrder(g, w.ops)
      && forall m :: m in AllMarks(w.state) ==> (m in w.issued || m in Chosen(actions)) && m < width
  {
    var w := DoAll(Begin(g), actions);
    BeginIsWorld(g);
    RunKeeps(g, Begin(g), actions);
    SuppliedAreChosen(Begin(g), actions);
    DrawnFromStart(g, w.ops);
    DrawnIsInOrder(g, w.ops);
  }

  // ------------------------------------------------------ tags

  lemma PaintKeepsTags(w: World, buf: int, n: nat)
    requires IsGen(w.gen)
    ensures Paint(w, buf, n).tags == w.tags && Paint(w, buf, n).at == w.at
  {
  }

  lemma ActionKeepsMark(w: World, a: Action, id: nat)
    requires IsGen(w.gen) && id in w.tags
    ensures id in Does(w, a).tags && Does(w, a).tags[id] == w.tags[id]
  {
    if a.ReadBytes? && a.ret > 0 {
      PaintKeepsTags(w, a.buf, a.ret);
    }
  }

  /** An id keeps its mark for the rest of the run. */
  lemma {:induction false} IdKeepsMark(w: World, actions: seq<Action>, id: nat)
    requires IsGen(w.gen) && id in w.tags
    ensures id in DoAll(w, actions).tags && DoAll(w, actions).tags[id] == w.tags[id]
    decreases |actions|
  {
    if actions != [] {
      var n := |actions| - 1;
      IdKeepsMark(w, actions[..n], id);
      ActionKeepsMark(DoAll(w, actions[..n]), actions[n], id);
    }
  }

  /** Every byte of the range holds this mark and no other. */
  ghost predicate Holds(s: State, start: int, size: nat, mark: nat) {
    forall a :: start <= a < start + size ==> InMem(a) in s && s[InMem(a)] == {mark}
  }

  lemma TagHolds(w: World, start: int, size: nat, id: nat)
    requires IsGen(w.gen)
    ensures
      var v := Does(w, TagRange(start, size, id));
      id in v.tags && Holds(v.state, start, size, v.tags[id]) && (id in w.tags ==> v.tags[id] == w.tags[id])
  {
    var v := Does(w, TagRange(start, size, id));
    forall a | start <= a < start + size
      ensures InMem(a) in v.state && v.state[InMem(a)] == {v.tags[id]}
    {
      assert InMem(a) in Bytes(start, size);
    }
  }

  // ------------------------------------------------------ what each action does, byte by byte

  /** Outside the range no place has changed. */
  ghost predicate OnlyRange(s: State, t: State, start: int, size: int) {
    forall p: Place {:trigger p in t} {:trigger p in s} ::
      !(p.InMem? && start <= p.byte < start + size) ==> (p in t <==> p in s) && (p in s ==> t[p] == s[p])
  }

  /** One mark was drawn, the generator's current one, and ids and supplied marks are as before. */
  ghost predicate DrewOne(w: World, v: World) {
    && IsGen(w.gen) && v.gen == Succ(w.gen) && v.issued == w.issued + [w.gen.current]
    && v.tags == w.tags && v.at == w.at && v.supplied == w.supplied
  }

  ghost predicate DrewNone(w: World, v: World) {
    v.gen == w.gen && v.issued == w.issued && v.tags == w.tags && v.at == w.at
  }

  lemma TaintedHolds(w: World, start: int, size: nat, mark: nat)
    ensures Holds(Tainted(w, start, size, mark).state, start, size, mark)
    ensures OnlyRange(w.state, Tainted(w, start, size, mark).state, start, size)
  {
    var t := Tainted(w, start, size, mark).state;
    forall a | start <= a < start + size
      ensures InMem(a) in t && t[InMem(a)] == {mark}
    {
      assert InMem(a) in Bytes(start, size);
    }
  }

  /**
    A per-read read that returned data draws one mark, however long it is, and every byte of the
    buffer holds exactly this one.
  */
  lemma ReadOnceHolds(w: World, buf: int, ret: int)
    requires IsGen(w.gen)
    ensures
      var v := Does(w, ReadOnce(buf, ret));
      if ret > 0 then DrewOne(w, v) && Holds(v.state, buf, ret, w.gen.current) && OnlyRange(w.state, v.state, buf, ret)
      else v == w
  {
    if ret > 0 {
      TaintedHolds(Draws(w), buf, ret, w.gen.current);
    }
  }

  /** Byte i of the buffer holds the i-th mark issued since w, which is the generator's i-th next one. */
  ghost predicate ByteHoldsNth(w: World, v: World, buf: int, i: nat) {
    && IsGen(w.gen) && |w.issued| + i < |v.issued|
    && v.issued[|w.issued| + i] == AfterMany(w.gen, i).current
    && InMem(buf + i) in v.state && v.state[InMem(buf + i)] == {v.issued[|w.issued| + i]}
  }

  /** A per-byte read that returned data draws one mark for every byte, in order; byte i holds the i-th. */
  lemma ReadBytesHolds(w: World, buf: int, ret: int)
    requires IsGen(w.gen)
    ensures
      var v := Does(w, ReadBytes(buf, ret));
      if ret > 0 then
        && |v.issued| == |w.issued| + ret && v.issued[..|w.issued|] == w.issued
        && v.gen == AfterMany(w.gen, ret)
        && (forall i :: 0 <= i < ret ==> ByteHoldsNth(w, v, buf, i))
        && OnlyRange(w.state, v.state, buf, ret)
      else v == w
  {
    if ret > 0 {
      var v := Paint(w, buf, ret);
      PaintDraws(w, buf, ret);
      forall i | 0 <= i < ret
        ensures ByteHoldsNth(w, v, buf, i)
      {
        PaintedAt(w, buf, ret, i);
      }
      forall p: Place | !(p.InMem? && buf <= p.byte < buf + ret)
        ensures (p in v.state <==> p in w.state) && (p in w.state ==> v.state[p] == w.state[p])
      {
        PaintedElsewhere(w, buf, ret, p);
      }
    }
  }

  /** The bytes hold the supplied mark, or for -1 the next one of the generator. */
  lemma SupplyHolds(w: World, start: int, size: nat, mark: int)
    requires IsGen(w.gen) && mark >= -1
    ensures
      var v := Does(w, Supply(start, size, mark));
      && OnlyRange(w.state, v.state, start, size)
      && if mark == -1 then DrewOne(w, v) && Holds(v.state, start, size, w.gen.current)
         else DrewNone(w, v) && v.supplied == w.supplied + {mark} && Holds(v.state, start, size, mark)
  {
    if mark == -1 {
      TaintedHolds(Draws(w), start, size, w.gen.current);
    } else {
      TaintedHolds(w.(supplied := w.supplied + {mark}), start, size, mark);
    }
  }

  /** The first use of an id draws one mark for it, any other use draws none; other ids keep theirs. */
  lemma TagDraws(w: World, start: int, size: nat, id: nat)
    requires IsGen(w.gen)
    ensures
      var v := Does(w, TagRange(start, size, id));
      && OnlyRange(w.state, v.state, start, size) && v.supplied == w.supplied
      && if id in w.tags then DrewNone(w, v)
         else
           && v.gen == Succ(w.gen) && v.issued == w.issued + [w.gen.current]
           && v.tags == w.tags[id := w.gen.current] && v.at == w.at[id := |w.issued|]
  {
    TaintedHolds(Know(w, id), start, size, Know(w, id).tags[id]);
  }

  /** Untagging removes the entry of a byte exactly if it and all bytes from the start up to it have one. */
  lemma UntagHolds(w: World, start: int, p: Place)
    requires IsGen(w.gen)
    ensures
      var v := Does(w, Action.Untag(start));
      && v == w.(state := v.state)
      && (p in v.state <==> p in w.state && !(p.InMem? && start <= p.byte && IsTaggedTo(w.state, start, p.byte)))
      && (p in v.state ==> v.state[p] == w.state[p])
  {
    var n := TagRun(w.state, start);
    assert IsTagged(w.state, start, n);
    if p.InMem? && start <= p.byte {
      assert IsTaggedTo(w.state, start, p.byte) <==> p.byte < start + n;
      assert p in Bytes(start, n) <==> p.byte < start + n;
    }
  }

  /** All bytes from start to a have entries. */
  ghost predicate IsTaggedTo(s: State, start: int, a: int) {
    forall b :: start <= b <= a ==> InMem(b) in s
  }

  /** A new start makes the current mark the one that the generator comes back to, and changes nothing else. */
  lemma NewStartHolds(w: World)
    requires IsGen(w.gen)
    ensures
      var v := Does(w, NewStart);
      && v == w.(gen := v.gen, ops := v.ops)
      && v.gen.current == w.gen.current && v.gen.start == w.gen.current && v.gen.max == w.gen.max
  {
  }

  /** Ranges tagged with the same id, however far apart in the run, get the same single mark. */
  lemma TagsAlike(w: World, id: nat, start: int, size: nat, between: seq<Action>, later: int, length: nat)
    requires IsGen(w.gen)
    ensures
      var v := Does(w, TagRange(start, size, id));
      var u := Does(DoAll(v, between), TagRange(later, length, id));
      && id in v.tags && id in u.tags && u.tags[id] == v.tags[id]
      && Holds(v.state, start, size, v.tags[id]) && Holds(u.state, later, length, v.tags[id])
  {
    var v := Does(w, TagRange(start, size, id));
    TagHolds(w, start, size, id);
    IdKeepsMark(v, between, id);
    TagHolds(DoAll(v, between), later, length, id);
  }

  /**
    Whatever else draws marks in between: two different ids got different draws, and have the
    same mark exactly if these gave the same.  While the start is not moved, that is if they lie
    a multiple of the period apart.
  */
  lemma IdsAgree(g: Gen, w: World, id: nat, other: nat)
    requires IsWorld(g, w) && id != other && id in w.tags && other in w.tags
    ensures w.at[id] != w.at[other]
    ensures w.tags[id] == w.tags[other] <==> w.issued[w.at[id]] == w.issued[w.at[other]]
    ensures NoRestart(w.ops) ==> (w.tags[id] == w.tags[other] <==> Congruent(w.at[id], w.at[other], Period(g)))
  {
    if NoRestart(w.ops) {
      DrawsAreAfterMany(g, w.ops, w.at[id]);
      DrawsAreAfterMany(g, w.ops, w.at[other]);
      SameMark(g, w.at[id], w.at[other]);
    }
  }

  /**
    Ids have different marks, wherever the start is moved in between, as long as no more marks were
    issued than are left up to the maximum.
  */
  lemma IdsDiffer(g: Gen, w: World, id: nat, other: nat)
    requires IsWorld(g, w) && id != other && id in w.tags && other in w.tags && |w.issued| <= g.max - g.current
    ensures w.tags[id] != w.tags[other]
  {
    if w.at[id] < w.at[other] {
      FewDrawsDiffer(g, w.ops, w.at[id], w.at[other]);
    } else {
      FewDrawsDiffer(g, w.ops, w.at[other], w.at[id]);
    }
  }

  // ------------------------------------------------------ reads

  /** The marks of a read, byte by byte, are the ones that the generator issued for it. */
  lemma {:induction false} PaintedAt(w: World, buf: int, n: nat, i: nat)
    requires IsGen(w.gen) && i < n
    ensures |Paint(w, buf, n).issued| == |w.issued| + n && Paint(w, buf, n).issued[..|w.issued|] == w.issued
    ensures Paint(w, buf, n).issued[|w.issued| + i] == AfterMany(w.gen, i).current
    ensures InMem(buf + i) in Paint(w, buf, n).state
    ensures Paint(w, buf, n).state[InMem(buf + i)] == {Paint(w, buf, n).issued[|w.issued| + i]}
    decreases n
  {
    PaintDraws(w, buf, n - 1);
    if i < n - 1 {
      PaintedAt(w, buf, n - 1, i);
    }
  }

  lemma {:induction false} PaintDraws(w: World, buf: int, n: nat)
    requires IsGen(w.gen)
    ensures Paint(w, buf, n).gen == AfterMany(w.gen, n)
    ensures |Paint(w, buf, n).issued| == |w.issued| + n && Paint(w, buf, n).issued[..|w.issued|] == w.issued
  {
    if n > 0 {
      PaintDraws(w, buf, n - 1);
      OneMoreDrawn(w.gen, n - 1);
    }
  }

  lemma OneMoreDrawn(g: Gen, n: nat)
    requires IsGen(g)
    ensures AfterMany(g, n + 1) == Succ(AfterMany(g, n))
  {
    AfterBoth(g, n, 1);
    var h := AfterMany(g, n);
    assert AfterMany(Succ(h), 0) == Succ(h);
  }

  /** Only the bytes of the buffer change. */
  lemma {:induction false} PaintedElsewhere(w: World, buf: int, n: nat, p: Place)
    requires IsGen(w.gen) && p !in Bytes(buf, n)
    ensures p in Paint(w, buf, n).state <==> p in w.state
    ensures p in w.state ==> Paint(w, buf, n).state[p] == w.state[p]
  {
    if n > 0 {
      OneMoreByte(buf, n - 1);
      PaintedElsewhere(w, buf, n - 1, p);
    }
  }

  /**
    After one read, every byte holds a single mark, and two bytes hold the same one exactly if
    they lie a multiple of the period apart.
  */
  lemma BytesAgree(w: World, buf: int, ret: int, i: nat, j: nat)
    requires IsGen(w.gen) && i < ret && j < ret
    ensures
      var v := Does(w, ReadBytes(buf, ret));
      && InMem(buf + i) in v.state && v.state[InMem(buf + i)] == {AfterMany(w.gen, i).current}
      && InMem(buf + j) in v.state
      && (v.state[InMem(buf + i)] == v.state[InMem(buf + j)] <==> Congruent(i, j, Period(w.gen)))
  {
    PaintedAt(w, buf, ret, i);
    PaintedAt(w, buf, ret, j);
    SameMark(w.gen, i, j);
    SameSingleton(AfterMany(w.gen, i).current, AfterMany(w.gen, j).current);
  }

  lemma SameSingleton(x: nat, y: nat)
    ensures {x} == {y} <==> x == y
  {
    if {x} == {y} {
      assert x in {y};
    }
  }

  // ------------------------------------------------------ tagging and untagging

  ghost predicate Untagged(s: State, start: int, n: nat) {
    forall a :: start <= a < start + n ==> InMem(a) !in s
  }

  /** The tagged run goes on from the new bytes into whatever was tagged behind them. */
  lemma TaggedRunGrows(s: State, start: int, n: nat, mark: nat)
    ensures
      var k := TagRun(Step(s, NewTaint(start, n, mark)), start);
      k >= n && (k == n <==> InMem(start + n) !in s)
  {
    var t := Step(s, NewTaint(start, n, mark));
    var k := TagRun(t, start);
    assert k < n ==> InMem(start + k) in Bytes(start, n);
    assert InMem(start + n) in t <==> InMem(start + n) in s;
  }

  /**
    Tagging n bytes and then clearing at their start gives the memory back exactly if neither
    these bytes nor the one behind them had an entry.
  */
  lemma TagThenClear(w: World, start: int, n: nat, id: nat)
    requires IsGen(w.gen)
    ensures Does(Does(w, TagRange(start, n, id)), Untag(start)).state == w.state <==> Untagged(w.state, start, n + 1)
  {
    var s, v := w.state, Does(w, TagRange(start, n, id));
    var k := TagRun(v.state, start);
    var end := v.state - Bytes(start, k);
    TaggedRunGrows(s, start, n, v.tags[id]);
    if Untagged(s, start, n + 1) {
      assert InMem(start + n) !in s;
      assert end == s;
    } else {
      var a :| start <= a < start + (n + 1) && InMem(a) in s;
      assert InMem(a) in Bytes(start, k);
      assert InMem(a) !in end;
    }
  }
}
