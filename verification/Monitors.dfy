/**
  The system call observers: SyscallMonitor matches the begin and the end of a call thread by
  thread, and PathMonitor keeps the table of open files and decides who hears of a read.
*/
module Options {
  datatype Option<T> = None | Some(value: T)
}

module SyscallMonitors {
  import opened Collections
  import opened Options

  datatype Args = Args(num: int, arg0: int, arg1: int, arg2: int, arg3: int, arg4: int, arg5: int, ret: int, err: int)

  /** What an entry that operator[] inserts holds. */
  const ZERO: Args := Args(0, 0, 0, 0, 0, 0, 0, 0, 0)

  /** Callbacks are known by a number. */
  type Callback = nat

  datatype Delivery = Delivery(callback: Callback, args: Args)

  datatype Event =
    | Begin(tid: nat, args: Args)
    | End(tid: nat, ret: int, err: int)
    | AddObserver(num: int, callback: Callback)
    | SetDefault(callback: Callback)

  // ------------------------------------------------------ what a history of events calls for

  /** The arguments of the thread's latest begin. */
  ghost function Latest(events: seq<Event>, tid: nat): Args {
    if events == [] then ZERO
    else
      var e := events[|events| - 1];
      if e.Begin? && e.tid == tid then e.args else Latest(events[..|events| - 1], tid)
  }

  /** The observers of a call, in the order in which they were added. */
  ghost function Registered(events: seq<Event>, num: int): seq<Callback> {
    if events == [] then []
    else
      var before, e := Registered(events[..|events| - 1], num), events[|events| - 1];
      if e.AddObserver? && e.num == num then before + [e.callback] else before
  }

  ghost function Default(events: seq<Event>): Option<Callback> {
    if events == [] then None
    else
      var e := events[|events| - 1];
      if e.SetDefault? then Some(e.callback) else Default(events[..|events| - 1])
  }

  ghost function ToEach(callbacks: seq<Callback>, args: Args): seq<Delivery> {
    seq(|callbacks|, i requires 0 <= i < |callbacks| => Delivery(callbacks[i], args))
  }

  /** What one event calls for, given the events before it. */
  ghost function Due(events: seq<Event>, e: Event): seq<Delivery> {
    if !e.End? then []
    else
      var args := Latest(events, e.tid).(ret := e.ret, err := e.err);
      var observers := Registered(events, args.num);
      if observers != [] then ToEach(observers, args)
      else if Default(events).Some? then [Delivery(Default(events).value, args)]
      else []
  }

  ghost function AllDue(events: seq<Event>): seq<Delivery> {
    if events == [] then []
    else AllDue(events[..|events| - 1]) + Due(events[..|events| - 1], events[|events| - 1])
  }

  // ------------------------------------------------------ the same by positions in the history

  function Adds(num: int): Event -> bool {
    (e: Event) => e.AddObserver? && e.num == num
  }

  function SetsDefault(): Event -> bool {
    (e: Event) => e.SetDefault?
  }

  function BeginsIn(tid: nat): Event -> bool {
    (e: Event) => e.Begin? && e.tid == tid
  }

  /** Latest is what its name says: the arguments of the thread's last begin, or zeros if it has not begun any. */
  lemma {:induction false} LatestIsLast(events: seq<Event>, tid: nat)
    ensures forall i :: IsLastWhere(events, BeginsIn(tid), i) ==> Latest(events, tid) == events[i].args
    ensures Nowhere(events, BeginsIn(tid)) ==> Latest(events, tid) == ZERO
    decreases |events|
  {
    if events != [] {
      var before, e := events[..|events| - 1], events[|events| - 1];
      assert events == before + [e];
      LatestIsLast(before, tid);
      forall i
        ensures IsLastWhere(events, BeginsIn(tid), i) ==> Latest(events, tid) == events[i].args
      {
        LastWhereNext(before, e, BeginsIn(tid), i);
      }
      LastWhereNext(before, e, BeginsIn(tid), 0);
    }
  }

  lemma {:induction false} DefaultIsLast(events: seq<Event>)
    ensures forall i :: IsLastWhere(events, SetsDefault(), i) ==> Default(events) == Some(events[i].callback)
    ensures Nowhere(events, SetsDefault()) <==> Default(events).None?
    ensures Default(events).Some? ==> exists i :: IsLastWhere(events, SetsDefault(), i)
    decreases |events|
  {
    if events != [] {
      var n := |events| - 1;
      var before, e := events[..n], events[n];
      assert events == before + [e];
      DefaultIsLast(before);
      forall i
        ensures IsLastWhere(events, SetsDefault(), i) ==> Default(events) == Some(events[i].callback)
      {
        LastWhereNext(before, e, SetsDefault(), i);
      }
      LastWhereNext(before, e, SetsDefault(), n);
      if !e.SetDefault? && Default(before).Some? {
        var i :| IsLastWhere(before, SetsDefault(), i);
        LastWhereNext(before, e, SetsDefault(), i);
      }
    }
  }

  /** These are the callbacks of the AddObserver events at these positions. */
  ghost predicate AreAdded(events: seq<Event>, at: seq<nat>, callbacks: seq<Callback>) {
    && |callbacks| == |at|
    && forall k :: 0 <= k < |at| ==>
         at[k] < |events| && events[at[k]].AddObserver? && callbacks[k] == events[at[k]].callback
  }

  lemma {:induction false} RegisteredAre(events: seq<Event>, num: int) returns (at: seq<nat>)
    ensures Locates(events, Adds(num), at) && AreAdded(events, at, Registered(events, num))
    decreases |events|
  {
    at := [];
    if events != [] {
      var n := |events| - 1;
      var before, e := events[..n], events[n];
      assert events == before + [e];
      at := RegisteredAre(before, num);
      if Adds(num)(e) {
        LocatesNext(before, e, Adds(num), at);
        at := at + [n];
      } else {
        LocatesStay(before, e, Adds(num), at);
      }
    }
  }

  /** Each of the deliveries is to the observer added at the position of the same number. */
  ghost predicate GoToEach(due: seq<Delivery>, events: seq<Event>, at: seq<nat>, args: Args) {
    && |due| == |at|
    && forall k :: 0 <= k < |at| ==>
         at[k] < |events| && events[at[k]].AddObserver? && due[k] == Delivery(events[at[k]].callback, args)
  }

  /**
    At the end of a call there is one delivery for each observer added before for its number, in the
    order in which they were added.  If there is none, the default set last is called, if one was set.
  */
  lemma DueIs(events: seq<Event>, tid: nat, ret: int, err: int) returns (at: seq<nat>, args: Args)
    ensures args == Latest(events, tid).(ret := ret, err := err) && Locates(events, Adds(args.num), at)
    ensures
      var due := Due(events, End(tid, ret, err));
      if at != [] then GoToEach(due, events, at, args)
      else if Nowhere(events, SetsDefault()) then due == []
      else exists i :: IsLastWhere(events, SetsDefault(), i) && due == [Delivery(events[i].callback, args)]
  {
    args := Latest(events, tid).(ret := ret, err := err);
    at := RegisteredAre(events, args.num);
    DefaultIsLast(events);
  }

  lemma Regroup(all: seq<Delivery>, before: seq<Delivery>, a: seq<Delivery>, b: seq<Delivery>, c: seq<Delivery>,
                d: seq<Delivery>)
    requires before == a + b + c && all == before + d
    ensures all == a + b + (c + d)
  {
  }

  /** What is due at event k. */
  ghost function DueAt(events: seq<Event>, k: nat): seq<Delivery>
    requires k < |events|
  {
    Due(events[..k], events[k])
  }

  lemma DueAtEarlier(events: seq<Event>, n: nat, k: nat)
    requires k < n <= |events|
    ensures events[..n][..k] == events[..k] && DueAt(events[..n], k) == DueAt(events, k)
  {
    assert events[..n][..k] == events[..k];
  }

  /** Events deliver in their order, and only ends deliver at all. */
  lemma {:induction false} DueInOrder(events: seq<Event>, k: nat) returns (rest: seq<Delivery>)
    requires k < |events|
    ensures AllDue(events) == AllDue(events[..k]) + DueAt(events, k) + rest
    ensures !events[k].End? ==> DueAt(events, k) == []
    decreases |events|
  {
    var n := |events| - 1;
    if k < n {
      var before := DueInOrder(events[..n], k);
      DueAtEarlier(events, n, k);
      rest := before + DueAt(events, n);
      Regroup(AllDue(events), AllDue(events[..n]), AllDue(events[..k]), DueAt(events, k), before, DueAt(events, n));
    } else {
      rest := [];
    }
  }

  /** Other threads' events do not matter to what a thread is told. */
  lemma {:induction false} OtherThreadsDoNotMatter(events: seq<Event>, more: seq<Event>, tid: nat)
    requires forall j :: 0 <= j < |more| ==> !(more[j].Begin? && more[j].tid == tid)
    ensures Latest(events + more, tid) == Latest(events, tid)
    decreases |more|
  {
    if more == [] {
      assert events + more == events;
    } else {
      var k := |more| - 1;
      OtherThreadsDoNotMatter(events, more[..k], tid);
      assert (events + more)[..|events + more| - 1] == events + more[..k];
    }
  }

  ghost function Listed(observers: map<int, seq<Callback>>, num: int): seq<Callback> {
    if num in observers then observers[num] else []
  }

  ghost predicate Lists(observers: map<int, seq<Callback>>, events: seq<Event>) {
    forall num {:trigger Listed(observers, num)} {:trigger observers[num]} ::
      Listed(observers, num) == Registered(events, num) && (num in observers ==> observers[num] != [])
  }

  lemma ListsOneMore(observers: map<int, seq<Callback>>, events: seq<Event>, num: int, callback: Callback)
    requires Lists(observers, events)
    ensures Lists(observers[num := Listed(observers, num) + [callback]], events + [AddObserver(num, callback)])
  {
    var e := AddObserver(num, callback);
    var more := observers[num := Listed(observers, num) + [callback]];
    assert (events + [e])[..|events|] == events;
    forall other
      ensures Listed(more, other) == Registered(events + [e], other) && (other in more ==> more[other] != [])
    {
      assert Listed(observers, other) == Registered(events, other);
    }
  }

  class SyscallMonitor {
    var pendingSyscalls: map<nat, Args>
    var observers: map<int, seq<Callback>>
    var defaultObserver: Option<Callback>

    ghost var history: seq<Event>

    ghost predicate Valid()
      reads this
    {
      && defaultObserver == Default(history)
      && (forall tid :: (if tid in pendingSyscalls then pendingSyscalls[tid] else ZERO) == Latest(history, tid))
      && Lists(observers, history)
    }

    constructor ()
      ensures Valid() && history == []
    {
      pendingSyscalls, observers, defaultObserver, history := map[], map[], None, [];
    }

    method Observe(num: int, callback: Callback)
      requires Valid()
      modifies this`observers, this`history
      ensures Valid() && history == old(history) + [AddObserver(num, callback)]
    {
      var before := if num in observers then observers[num] else [];
      ListsOneMore(observers, history, num, callback);
      observers := observers[num := before + [callback]];
      Remember(AddObserver(num, callback));
    }

    method ObserveByDefault(callback: Callback)
      requires Valid()
      modifies this`defaultObserver, this`history
      ensures Valid() && history == old(history) + [SetDefault(callback)]
    {
      defaultObserver := Some(callback);
      Remember(SetDefault(callback));
    }

    ghost method Remember(e: Event)
      modifies this`history
      ensures history == old(history) + [e]
      ensures history[..|history| - 1] == old(history)
    {
      history := history + [e];
    }

    method BeginSyscall(tid: nat, args: Args)
      requires Valid()
      modifies this`pendingSyscalls, this`history
      ensures Valid() && history == old(history) + [Begin(tid, args)]
    {
      pendingSyscalls := pendingSyscalls[tid := args];
      Remember(Begin(tid, args));
    }

    /** Calls the observers, and returns these calls in order. */
    method EndSyscall(tid: nat, ret: int, err: int) returns (calls: seq<Delivery>)
      requires Valid()
      modifies this`pendingSyscalls, this`history
      ensures Valid() && history == old(history) + [End(tid, ret, err)]
      ensures calls == Due(old(history), End(tid, ret, err))
    {
      if tid !in pendingSyscalls {
        pendingSyscalls := pendingSyscalls[tid := ZERO];
      }
      var args := pendingSyscalls[tid].(ret := ret, err := err);
      assert Listed(observers, args.num) == Registered(history, args.num);
      calls := [];
      if args.num in observers {
        var active := observers[args.num];
        for i := 0 to |active|
          invariant calls == ToEach(active[..i], args)
        {
          assert active[..i + 1] == active[..i] + [active[i]];
          calls := calls + [Delivery(active[i], args)];
        }
        assert active[..|active|] == active;
      } else if defaultObserver.Some? {
        calls := [Delivery(defaultObserver.value, args)];
      }
      Remember(End(tid, ret, err));
    }

    method Handle(e: Event) returns (calls: seq<Delivery>)
      requires Valid()
      modifies this
      ensures Valid() && history == old(history) + [e] && calls == Due(old(history), e)
    {
      calls := [];
      match e {
        case Begin(tid, args) => BeginSyscall(tid, args);
        case End(tid, ret, err) => calls := EndSyscall(tid, ret, err);
        case AddObserver(num, callback) => Observe(num, callback);
        case SetDefault(callback) => ObserveByDefault(callback);
      }
    }

    /** For every interleaving of the threads' events, the observers hear exactly what is due. */
    method HandleAll(events: seq<Event>) returns (calls: seq<Delivery>)
      requires Valid() && history == []
      modifies this
      ensures Valid() && history == events && calls == AllDue(events)
    {
      calls := [];
      for i := 0 to |events|
        invariant Valid() && history == events[..i] && calls == AllDue(events[..i])
      {
        assert events[..i + 1] == events[..i] + [events[i]];
        assert events[..i + 1][..i] == events[..i];
        var more := Handle(events[i]);
        calls := calls + more;
      }
      assert events[..|events|] == events;
    }
  }
}

module PathMonitors {
  import opened Collections
  import opened Options
  import opened TaintState
  import opened Generators
  import opened TaintWorlds
  import opened TaintSources

  /** What is called for a read: one of the two that taint the buffer, or the default, which does nothing. */
  datatype PathCallback = PerByte | PerRead | DoNothing

  /** What a path source registers. */
  type Tainter = c: PathCallback | c != DoNothing witness PerByte

  datatype PathEvent =
    | Open(path: string, ret: int)
    | Close(fd: int, ret: int)
    | Read(fd: int, buf: int, ret: int)
    | ObservePath(path: string, callback: Tainter)
    | RegisterForAll(callback: Tainter)

  /** The path of the descriptor's latest successful open, if no successful close came after it. */
  ghost function OpenAs(events: seq<PathEvent>, fd: int): Option<string> {
    if events == [] then None
    else
      var e := events[|events| - 1];
      if e.Open? && e.ret == fd && e.ret != -1 then Some(e.path)
      else if e.Close? && e.fd == fd && e.ret != -1 then None
      else OpenAs(events[..|events| - 1], fd)
  }

  ghost function ObserversOf(events: seq<PathEvent>, path: string): seq<Tainter> {
    if events == [] then []
    else
      var before, e := ObserversOf(events[..|events| - 1], path), events[|events| - 1];
      if e.ObservePath? && e.path == path then before + [e.callback] else before
  }

  ghost function ForAll(events: seq<PathEvent>): Option<Tainter> {
    if events == [] then None
    else
      var e := events[|events| - 1];
      if e.RegisterForAll? then Some(e.callback) else ForAll(events[..|events| - 1])
  }

  /** Who is called for a read, in order. */
  ghost function Called(events: seq<PathEvent>, observeEverything: bool, fd: int): seq<PathCallback> {
    if OpenAs(events, fd).None? then []
    else if ObserversOf(events, OpenAs(events, fd).value) != [] then ObserversOf(events, OpenAs(events, fd).value)
    else if observeEverything then (if ForAll(events).Some? then [ForAll(events).value] else [])
    else [DoNothing]
  }

  // ------------------------------------------------------ the same by positions in the history

  /** A successful open that returns the descriptor, or a successful close of it. */
  function Touches(fd: int): PathEvent -> bool {
    (e: PathEvent) => (e.Open? && e.ret == fd && e.ret != -1) || (e.Close? && e.fd == fd && e.ret != -1)
  }

  function Watches(path: string): PathEvent -> bool {
    (e: PathEvent) => e.ObservePath? && e.path == path
  }

  function WatchesAll(): PathEvent -> bool {
    (e: PathEvent) => e.RegisterForAll?
  }

  /** A descriptor is open as the path of its last successful open, unless it was successfully closed since. */
  lemma {:induction false} OpenAsIs(events: seq<PathEvent>, fd: int)
    ensures forall i :: IsLastWhere(events, Touches(fd), i) ==>
              OpenAs(events, fd) == if events[i].Open? then Some(events[i].path) else None
    ensures Nowhere(events, Touches(fd)) ==> OpenAs(events, fd).None?
    ensures OpenAs(events, fd).Some? ==> exists i :: IsLastWhere(events, Touches(fd), i)
    decreases |events|
  {
    if events != [] {
      var n := |events| - 1;
      var before, e := events[..n], events[n];
      assert events == before + [e];
      OpenAsIs(before, fd);
      forall i
        ensures IsLastWhere(events, Touches(fd), i) ==>
                  OpenAs(events, fd) == if events[i].Open? then Some(events[i].path) else None
      {
        LastWhereNext(before, e, Touches(fd), i);
      }
      LastWhereNext(before, e, Touches(fd), n);
      if !Touches(fd)(e) && OpenAs(before, fd).Some? {
        var i :| IsLastWhere(before, Touches(fd), i);
        LastWhereNext(before, e, Touches(fd), i);
      }
    }
  }

  /**
    A descriptor is open as this path if and only if there is a successful open of the path that
    returned it, after which it was neither returned by a successful open nor successfully closed.
  */
  lemma OpenAsIff(events: seq<PathEvent>, fd: int, path: string)
    ensures OpenAs(events, fd) == Some(path) <==>
            exists i :: IsLastWhere(events, Touches(fd), i) && events[i].Open? && events[i].path == path
  {
    OpenAsIs(events, fd);
  }

  ghost predicate AreWatching(events: seq<PathEvent>, at: seq<nat>, callbacks: seq<PathCallback>) {
    && |callbacks| == |at|
    && forall k :: 0 <= k < |at| ==>
         at[k] < |events| && events[at[k]].ObservePath? && callbacks[k] == events[at[k]].callback
  }

  lemma {:induction false} ObserversAre(events: seq<PathEvent>, path: string) returns (at: seq<nat>)
    ensures Locates(events, Watches(path), at) && AreWatching(events, at, ObserversOf(events, path))
    decreases |events|
  {
    at := [];
    if events != [] {
      var n := |events| - 1;
      var before, e := events[..n], events[n];
      assert events == before + [e];
      at := ObserversAre(before, path);
      if Watches(path)(e) {
        LocatesNext(before, e, Watches(path), at);
        at := at + [n];
      } else {
        LocatesStay(before, e, Watches(path), at);
      }
    }
  }

  lemma {:induction false} ForAllIsLast(events: seq<PathEvent>)
    ensures forall i :: IsLastWhere(events, WatchesAll(), i) ==> ForAll(events) == Some(events[i].callback)
    ensures Nowhere(events, WatchesAll()) <==> ForAll(events).None?
    ensures ForAll(events).Some? ==> exists i :: IsLastWhere(events, WatchesAll(), i)
    decreases |events|
  {
    if events != [] {
      var n := |events| - 1;
      var before, e := events[..n], events[n];
      assert events == before + [e];
      ForAllIsLast(before);
      forall i
        ensures IsLastWhere(events, WatchesAll(), i) ==> ForAll(events) == Some(events[i].callback)
      {
        LastWhereNext(before, e, WatchesAll(), i);
      }
      LastWhereNext(before, e, WatchesAll(), n);
      if !e.RegisterForAll? && ForAll(before).Some? {
        var i :| IsLastWhere(before, WatchesAll(), i);
        LastWhereNext(before, e, WatchesAll(), i);
      }
    }
  }

  /**
    Who is called for a read of an open file: all callbacks registered for its path, in their order.
    If there are none, the callback registered last for all files, where everything is observed, or
    else the one that does nothing.  Nobody is called for a descriptor that is not open.
  */
  lemma CalledAre(events: seq<PathEvent>, observeEverything: bool, fd: int) returns (at: seq<nat>)
    ensures
      var called := Called(events, observeEverything, fd);
      if OpenAs(events, fd).None? then called == []
      else
        && Locates(events, Watches(OpenAs(events, fd).value), at)
        && if at != [] then AreWatching(events, at, called)
           else if !observeEverything then called == [DoNothing]
           else if Nowhere(events, WatchesAll()) then called == []
           else exists i :: IsLastWhere(events, WatchesAll(), i) && called == [events[i].callback]
  {
    at := [];
    if OpenAs(events, fd).Some? {
      at := ObserversAre(events, OpenAs(events, fd).value);
      ForAllIsLast(events);
    }
  }

  /** What a callback does to the taint of the buffer. */
  ghost function Hears(w: World, called: PathCallback, buf: int, ret: int): (v: World)
    requires IsGen(w.gen)
    ensures IsGen(v.gen)
  {
    match called
    case PerByte => Does(w, ReadBytes(buf, ret))
    case PerRead => Does(w, ReadOnce(buf, ret))
    case DoNothing => w
  }

  ghost function AllHear(w: World, called: seq<PathCallback>, buf: int, ret: int): (v: World)
    requires IsGen(w.gen)
    ensures IsGen(v.gen)
  {
    if called == [] then w else Hears(AllHear(w, called[..|called| - 1], buf, ret), called[|called| - 1], buf, ret)
  }

  /** What a read with this result does, on the history before it. */
  ghost function ReadDoes(w: World, events: seq<PathEvent>, observeEverything: bool,
                          fd: int, buf: int, ret: int): (v: World)
    requires IsGen(w.gen)
    ensures IsGen(v.gen)
  {
    if ret == -1 then w else AllHear(w, Called(events, observeEverything, fd), buf, ret)
  }

  // ------------------------------------------------------ what the design promises

  /** The descriptor's file is observed, or everything is and someone wants to hear of it. */
  ghost predicate ShouldTaint(events: seq<PathEvent>, observeEverything: bool, fd: int) {
    && OpenAs(events, fd).Some?
    && (ObserversOf(events, OpenAs(events, fd).value) != [] || (observeEverything && ForAll(events).Some?))
  }

  /** Byte a holds one mark, and the generator issued it since w. */
  ghost predicate NewlyMarked(w: World, v: World, a: int) {
    && InMem(a) in v.state
    && exists k :: |w.issued| <= k < |v.issued| && v.state[InMem(a)] == {v.issued[k]}
  }

  /** Every byte of the buffer is newly marked, and nothing else has changed. */
  ghost predicate NewlyTainted(w: World, v: World, buf: int, ret: int) {
    && |v.issued| >= |w.issued| && v.issued[..|w.issued|] == w.issued
    && (forall a :: buf <= a < buf + ret ==> NewlyMarked(w, v, a))
    && (forall p: Place :: !(p.InMem? && buf <= p.byte < buf + ret) ==> (p in v.state <==> p in w.state))
    && (forall p: Place :: !(p.InMem? && buf <= p.byte < buf + ret) && p in w.state ==> v.state[p] == w.state[p])
  }

  lemma TainterTaints(w: World, called: Tainter, buf: int, ret: int)
    requires IsGen(w.gen) && ret > 0
    ensures NewlyTainted(w, Hears(w, called, buf, ret), buf, ret)
  {
    if called.PerByte? {
      PerByteTaints(w, buf, ret);
    } else {
      PerReadTaints(w, buf, ret);
    }
  }

  lemma PerByteTaints(w: World, buf: int, n: nat)
    requires IsGen(w.gen)
    ensures NewlyTainted(w, Paint(w, buf, n), buf, n)
  {
    var v := Paint(w, buf, n);
    PaintDraws(w, buf, n);
    forall a | buf <= a < buf + n
      ensures NewlyMarked(w, v, a)
    {
      PaintedAt(w, buf, n, a - buf);
      assert v.state[InMem(buf + (a - buf))] == {v.issued[|w.issued| + (a - buf)]};
    }
    forall p: Place | !(p.InMem? && buf <= p.byte < buf + n)
      ensures p in v.state <==> p in w.state
      ensures p in w.state ==> v.state[p] == w.state[p]
    {
      PaintedElsewhere(w, buf, n, p);
    }
  }

  lemma PerReadTaints(w: World, buf: int, ret: int)
    requires IsGen(w.gen) && ret > 0
    ensures NewlyTainted(w, Does(w, ReadOnce(buf, ret)), buf, ret)
  {
    var v := Does(w, ReadOnce(buf, ret));
    assert v.issued == w.issued + [w.gen.current];
    forall a | buf <= a < buf + ret
      ensures NewlyMarked(w, v, a)
    {
      assert InMem(a) in Bytes(buf, ret);
      assert v.issued[|w.issued|] == w.gen.current;
    }
  }

  lemma TaintedAgain(w: World, u: World, v: World, buf: int, ret: int)
    requires NewlyTainted(w, u, buf, ret) || w == u
    requires NewlyTainted(u, v, buf, ret)
    ensures NewlyTainted(w, v, buf, ret)
  {
    forall a | buf <= a < buf + ret
      ensures NewlyMarked(w, v, a)
    {
      assert NewlyMarked(u, v, a);
    }
  }

  /** If several hear of a read the last one's marks stay, and they are new all the same. */
  lemma {:induction false} TaintersTaint(w: World, called: seq<Tainter>, buf: int, ret: int)
    requires IsGen(w.gen) && ret > 0 && called != []
    ensures NewlyTainted(w, AllHear(w, called, buf, ret), buf, ret)
    decreases |called|
  {
    var n := |called| - 1;
    var u := AllHear(w, called[..n], buf, ret);
    TainterTaints(u, called[n], buf, ret);
    if n > 0 {
      TaintersTaint(w, called[..n], buf, ret);
    }
    TaintedAgain(w, u, Hears(u, called[n], buf, ret), buf, ret);
  }

  lemma {:induction false} NothingReadNothingDone(w: World, called: seq<PathCallback>, buf: int, ret: int)
    requires IsGen(w.gen) && ret <= 0
    ensures AllHear(w, called, buf, ret) == w
    decreases |called|
  {
    if called != [] {
      NothingReadNothingDone(w, called[..|called| - 1], buf, ret);
    }
  }

  /** How many marks a read draws: one for every byte, or one in all. */
  ghost function DrawsOf(called: PathCallback, ret: nat): nat {
    match called
    case PerByte => ret
    case PerRead => 1
    case DoNothing => 0
  }

  ghost function AllDrawsOf(called: seq<PathCallback>, ret: nat): nat {
    if called == [] then 0 else AllDrawsOf(called[..|called| - 1], ret) + DrawsOf(called[|called| - 1], ret)
  }

  lemma {:induction false} HearingDraws(w: World, called: seq<PathCallback>, buf: int, ret: int)
    requires IsGen(w.gen) && ret > 0
    ensures |AllHear(w, called, buf, ret).issued| == |w.issued| + AllDrawsOf(called, ret)
    decreases |called|
  {
    if called != [] {
      var n := |called| - 1;
      HearingDraws(w, called[..n], buf, ret);
      ReadBytesHolds(AllHear(w, called[..n], buf, ret), buf, ret);
    }
  }

  /**
    What the bytes hold after a read: what the last one called puts there.  One that taints per read
    draws one mark and puts it into every byte, one that taints per byte draws as many marks as there
    are bytes.
  */
  lemma LastHeardDecides(w: World, called: seq<PathCallback>, buf: int, ret: int)
    requires IsGen(w.gen) && ret > 0 && called != []
    ensures
      var n := |called| - 1;
      var u, v := AllHear(w, called[..n], buf, ret), AllHear(w, called, buf, ret);
      && |v.issued| == |w.issued| + AllDrawsOf(called, ret)
      && match called[n]
         case PerRead => DrewOne(u, v) && Holds(v.state, buf, ret, u.gen.current)
         case PerByte => forall i :: 0 <= i < ret ==> ByteHoldsNth(u, v, buf, i)
         case DoNothing => v == u
  {
    var n := |called| - 1;
    var u := AllHear(w, called[..n], buf, ret);
    HearingDraws(w, called, buf, ret);
    ReadBytesHolds(u, buf, ret);
    ReadOnceHolds(u, buf, ret);
  }

  /**
    After any history: a read that returned data marks every byte of its buffer anew if it should,
    and otherwise neither the store nor the generator changes.
  */
  lemma ReadTaintsIff(w: World, events: seq<PathEvent>, observeEverything: bool, fd: int, buf: int, ret: int)
    requires IsGen(w.gen)
    ensures
      var v := ReadDoes(w, events, observeEverything, fd, buf, ret);
      if ret > 0 && ShouldTaint(events, observeEverything, fd) then NewlyTainted(w, v, buf, ret) else v == w
  {
    var called := Called(events, observeEverything, fd);
    if ret <= 0 {
      NothingReadNothingDone(w, called, buf, ret);
    } else if ShouldTaint(events, observeEverything, fd) {
      TaintersTaint(w, called, buf, ret);
    } else if called != [] {
      var none: seq<PathCallback> := [];
      assert called == [DoNothing] && called[..0] == none && AllHear(w, none, buf, ret) == w;
    }
  }

  ghost function Listed(observers: map<string, seq<Tainter>>, path: string): seq<Tainter> {
    if path in observers then observers[path] else []
  }

  ghost predicate Lists(observers: map<string, seq<Tainter>>, events: seq<PathEvent>) {
    forall path {:trigger Listed(observers, path)} {:trigger observers[path]} ::
      Listed(observers, path) == ObserversOf(events, path) && (path in observers ==> observers[path] != [])
  }

  lemma ListsOneMore(observers: map<string, seq<Tainter>>, events: seq<PathEvent>, path: string, callback: Tainter)
    requires Lists(observers, events)
    ensures Lists(observers[path := Listed(observers, path) + [callback]], events + [ObservePath(path, callback)])
  {
    var e := ObservePath(path, callback);
    var more := observers[path := Listed(observers, path) + [callback]];
    assert (events + [e])[..|events|] == events;
    forall other
      ensures Listed(more, other) == ObserversOf(events + [e], other) && (other in more ==> more[other] != [])
    {
      assert Listed(observers, other) == ObserversOf(events, other);
    }
  }

  class PathMonitor {
    const observeEverything: bool
    const sources: Sources
    var observers: map<string, seq<Tainter>>
    var allObserver: Option<Tainter>
    var defaultObserver: Option<PathCallback>
    var activeFileDescriptors: map<int, string>

    ghost var history: seq<PathEvent>

    ghost predicate Valid()
      reads this
    {
      && allObserver == ForAll(history) && defaultObserver == Some(DoNothing)
      && (forall fd :: (if fd in activeFileDescriptors then Some(activeFileDescriptors[fd]) else None) ==
            OpenAs(history, fd))
      && Lists(observers, history)
    }

    /** A monitor for a path source, whose default callback does nothing. */
    constructor (observeAll: bool, sources: Sources)
      ensures Valid() && history == [] && observeEverything == observeAll && this.sources == sources
    {
      observeEverything, this.sources := observeAll, sources;
      observers, allObserver, defaultObserver, activeFileDescriptors := map[], None, Some(DoNothing), map[];
      history := [];
    }

    ghost method Remember(e: PathEvent)
      modifies this`history
      ensures history == old(history) + [e]
      ensures history[..|history| - 1] == old(history)
    {
      history := history + [e];
    }

    method Observe(path: string, callback: Tainter)
      requires Valid()
      modifies this`observers, this`history
      ensures Valid() && history == old(history) + [ObservePath(path, callback)]
    {
      var before := if path in observers then observers[path] else [];
      ListsOneMore(observers, history, path, callback);
      observers := observers[path := before + [callback]];
      Remember(ObservePath(path, callback));
    }

    method RegisterCallbackForAll(callback: Tainter)
      requires Valid()
      modifies this`allObserver, this`history
      ensures Valid() && history == old(history) + [RegisterForAll(callback)]
    {
      allObserver := Some(callback);
      Remember(RegisterForAll(callback));
    }

    method OpenCallback(path: string, ret: int)
      requires Valid()
      modifies this`activeFileDescriptors, this`history
      ensures Valid() && history == old(history) + [Open(path, ret)]
    {
      if ret != -1 {
        activeFileDescriptors := activeFileDescriptors[ret := path];
      }
      Remember(Open(path, ret));
    }

    method CloseCallback(fd: int, ret: int)
      requires Valid()
      modifies this`activeFileDescriptors, this`history
      ensures Valid() && history == old(history) + [Close(fd, ret)]
    {
      if ret != -1 {
        activeFileDescriptors := activeFileDescriptors - {fd};
      }
      Remember(Close(fd, ret));
    }

    /** Calls one callback. */
    method Notify(called: PathCallback, buf: int, ret: int)
      requires sources.Valid()
      modifies sources`world, sources.gen
      modifies sources.store`memTaintMap, sources.store`cells, sources.store`arrays, sources.store`state
      ensures sources.Valid() && sources.world == Hears(old(sources.world), called, buf, ret)
      ensures fresh(sources.store.arrays - old(sources.store.arrays))
    {
      match called {
        case PerByte => sources.ReadPerByte(buf, ret);
        case PerRead => sources.ReadPerRead(buf, ret);
        case DoNothing =>
      }
    }

    method NotifyAll(called: seq<PathCallback>, buf: int, ret: int)
      requires sources.Valid()
      modifies sources`world, sources.gen
      modifies sources.store`memTaintMap, sources.store`cells, sources.store`arrays, sources.store`state
      ensures sources.Valid() && sources.world == AllHear(old(sources.world), called, buf, ret)
      ensures fresh(sources.store.arrays - old(sources.store.arrays))
    {
      ghost var w := sources.world;
      for i := 0 to |called|
        invariant sources.Valid() && sources.world == AllHear(w, called[..i], buf, ret)
        invariant fresh(sources.store.arrays - old(sources.store.arrays))
      {
        ghost var before := sources.store.arrays;
        assert called[..i + 1][..i] == called[..i];
        Notify(called[i], buf, ret);
        assert fresh(sources.store.arrays - before);
      }
      assert called[..|called|] == called;
    }

    /** Finds out who is to be called. */
    method WhoHears(fd: int) returns (called: seq<PathCallback>)
      requires Valid()
      ensures called == Called(history, observeEverything, fd)
    {
      called := [];
      if fd !in activeFileDescriptors {
        return;
      }
      assert OpenAs(history, fd) == Some(activeFileDescriptors[fd]);
      var pathname := activeFileDescriptors[fd];
      assert Listed(observers, pathname) == ObserversOf(history, pathname);
      if pathname !in observers {
        if observeEverything {
          if allObserver.Some? {
            called := [allObserver.value];
          }
          return;
        }
        if defaultObserver.Some? {
          called := [defaultObserver.value];
        }
        return;
      }
      called := observers[pathname];
    }

    method NotifyForRead(fd: int, buf: int, ret: int)
      requires Valid() && sources.Valid()
      modifies sources`world, sources.gen
      modifies sources.store`memTaintMap, sources.store`cells, sources.store`arrays, sources.store`state
      ensures Valid() && sources.Valid() && fresh(sources.store.arrays - old(sources.store.arrays))
      ensures sources.world == AllHear(old(sources.world), Called(history, observeEverything, fd), buf, ret)
    {
      var called := WhoHears(fd);
      NotifyAll(called, buf, ret);
    }

    /** A read taints its buffer as ReadTaintsIff says, whatever happened before. */
    method ReadCallback(fd: int, buf: int, ret: int)
      requires Valid() && sources.Valid()
      modifies this`history, sources`world, sources.gen
      modifies sources.store`memTaintMap, sources.store`cells, sources.store`arrays, sources.store`state
      ensures Valid() && sources.Valid() && fresh(sources.store.arrays - old(sources.store.arrays))
      ensures history == old(history) + [Read(fd, buf, ret)]
      ensures sources.world == ReadDoes(old(sources.world), old(history), observeEverything, fd, buf, ret)
      ensures if ret > 0 && ShouldTaint(old(history), observeEverything, fd)
              then NewlyTainted(old(sources.world), sources.world, buf, ret) else sources.world == old(sources.world)
    {
      ReadTaintsIff(sources.world, history, observeEverything, fd, buf, ret);
      if ret != -1 {
        NotifyForRead(fd, buf, ret);
      }
      RememberRead(fd, buf, ret);
    }

    method RememberRead(fd: int, buf: int, ret: int)
      requires Valid()
      modifies this`history
      ensures Valid() && history == old(history) + [Read(fd, buf, ret)]
    {
      Remember(Read(fd, buf, ret));
    }
  }
}

/**
  The two together: PathMonitor's callbacks are observers of SyscallMonitor, so that the file table
  follows the calls that the threads complete, however they are interleaved.
*/
module PathSources {
  import opened Collections
  import opened Options
  import opened SyscallMonitors
  import opened PathMonitors
  import opened Generators
  import opened TaintWorlds
  import opened TaintSources

  // The numbers of the calls that the monitor watches.
  const SYS_READ := 3
  const SYS_OPEN := 5
  const SYS_CLOSE := 6

  // Its callbacks.
  const OPEN_CALLBACK: Callback := 0
  const CLOSE_CALLBACK: Callback := 1
  const READ_CALLBACK: Callback := 2

  /** A thread begins or ends a call; `path` is the text that the first argument points to at the end. */
  datatype Happening = Begins(tid: nat, args: Args) | Ends(tid: nat, ret: int, err: int, path: string)

  ghost function Activation(): seq<Event> {
    [AddObserver(SYS_OPEN, OPEN_CALLBACK), AddObserver(SYS_CLOSE, CLOSE_CALLBACK), AddObserver(SYS_READ, READ_CALLBACK)]
  }

  ghost function EventOf(h: Happening): Event {
    match h
    case Begins(tid, args) => Begin(tid, args)
    case Ends(tid, ret, err, _) => End(tid, ret, err)
  }

  /** What the system call monitor has seen. */
  ghost function Seen(hs: seq<Happening>): seq<Event> {
    Activation() + seq(|hs|, i requires 0 <= i < |hs| => EventOf(hs[i]))
  }

  /** What the end of a call means for files, going by the arguments that its thread began it with. */
  ghost function FileEvents(hs: seq<Happening>, h: Happening): seq<PathEvent> {
    if h.Begins? then []
    else
      var args := Latest(Seen(hs), h.tid);
      if args.num == SYS_OPEN then [Open(h.path, h.ret)]
      else if args.num == SYS_CLOSE then [Close(args.arg0, h.ret)]
      else if args.num == SYS_READ then [Read(args.arg0, args.arg1, h.ret)]
      else []
  }

  ghost function AllFileEvents(hs: seq<Happening>): seq<PathEvent> {
    if hs == [] then []
    else AllFileEvents(hs[..|hs| - 1]) + FileEvents(hs[..|hs| - 1], hs[|hs| - 1])
  }

  /** What one happening does to taint, when `before` is the file history until then. */
  ghost function Effect(w: World, before: seq<PathEvent>, events: seq<PathEvent>, observeEverything: bool): (v: World)
    requires IsGen(w.gen)
    ensures IsGen(v.gen)
  {
    if events != [] && events[0].Read? then
      ReadDoes(w, before, observeEverything, events[0].fd, events[0].buf, events[0].ret)
    else w
  }

  ghost function AllEffects(w: World, before: seq<PathEvent>, hs: seq<Happening>, observeEverything: bool): (v: World)
    requires IsGen(w.gen)
    ensures IsGen(v.gen)
  {
    if hs == [] then w
    else
      var n := |hs| - 1;
      Effect(AllEffects(w, before, hs[..n], observeEverything), before + AllFileEvents(hs[..n]),
             FileEvents(hs[..n], hs[n]), observeEverything)
  }

  lemma OneMoreEvent(events: seq<Event>, e: Event, num: int)
    ensures Registered(events + [e], num) ==
            if e.AddObserver? && e.num == num then Registered(events, num) + [e.callback] else Registered(events, num)
    ensures Default(events + [e]) == if e.SetDefault? then Some(e.callback) else Default(events)
  {
    assert (events + [e])[..|events + [e]| - 1] == events;
  }

  lemma {:induction false} OnlyThreeObserved(hs: seq<Happening>, num: int)
    ensures Registered(Seen(hs), num) ==
            if num == SYS_OPEN then [OPEN_CALLBACK] else if num == SYS_CLOSE then [CLOSE_CALLBACK]
            else if num == SYS_READ then [READ_CALLBACK] else []
    ensures Default(Seen(hs)).None?
    decreases |hs|
  {
    if hs == [] {
      var none: seq<Event>, a, b, c := [], Activation()[0], Activation()[1], Activation()[2];
      OneMoreEvent(none, a, num);
      OneMoreEvent(none + [a], b, num);
      OneMoreEvent(none + [a] + [b], c, num);
      assert Seen(hs) == none + [a] + [b] + [c];
    } else {
      var n := |hs| - 1;
      OnlyThreeObserved(hs[..n], num);
      SeenNext(hs[..n], hs[n]);
      assert hs[..n] + [hs[n]] == hs;
      OneMoreEvent(Seen(hs[..n]), EventOf(hs[n]), num);
    }
  }

  lemma SeenNext(hs: seq<Happening>, h: Happening)
    ensures Seen(hs + [h]) == Seen(hs) + [EventOf(h)]
  {
  }

  /** What is due at the end of a call: one callback for the three calls watched, else none. */
  lemma DueAtEnd(hs: seq<Happening>, tid: nat, ret: int, err: int)
    ensures
      var args := Latest(Seen(hs), tid).(ret := ret, err := err);
      Due(Seen(hs), End(tid, ret, err)) ==
        if args.num == SYS_OPEN then [Delivery(OPEN_CALLBACK, args)]
        else if args.num == SYS_CLOSE then [Delivery(CLOSE_CALLBACK, args)]
        else if args.num == SYS_READ then [Delivery(READ_CALLBACK, args)]
        else []
  {
    var args := Latest(Seen(hs), tid).(ret := ret, err := err);
    OnlyThreeObserved(hs, args.num);
  }

  class PathSource {
    const syscalls: SyscallMonitor
    const paths: PathMonitor

    ghost var happened: seq<Happening>

    ghost predicate Valid()
      reads this, syscalls, paths, paths.sources, paths.sources.gen, paths.sources.store, paths.sources.store.arrays
    {
      syscalls.Valid() && paths.Valid() && paths.sources.Valid() && syscalls.history == Seen(happened)
    }

    /** Makes a monitor and activates it. */
    constructor (observeAll: bool, sources: Sources)
      requires sources.Valid()
      ensures Valid() && happened == [] && paths.history == [] && paths.observeEverything == observeAll
      ensures paths.sources == sources && fresh(syscalls) && fresh(paths)
    {
      syscalls := new SyscallMonitor();
      paths := new PathMonitor(observeAll, sources);
      happened := [];
      new;
      Activate(syscalls);
    }

    static method Activate(syscalls: SyscallMonitor)
      requires syscalls.Valid() && syscalls.history == []
      modifies syscalls
      ensures syscalls.Valid() && syscalls.history == Seen([])
    {
      syscalls.Observe(SYS_OPEN, OPEN_CALLBACK);
      syscalls.Observe(SYS_CLOSE, CLOSE_CALLBACK);
      syscalls.Observe(SYS_READ, READ_CALLBACK);
      assert Seen([]) == Activation();
    }

    /** Open and close change the file table alone. */
    method DispatchToTable(d: Delivery, path: string)
      requires paths.Valid() && (d.callback == OPEN_CALLBACK || d.callback == CLOSE_CALLBACK)
      modifies paths`history, paths`activeFileDescriptors
      ensures paths.Valid() && paths.history == old(paths.history) + [FileEvent(d, path)]
    {
      if d.callback == OPEN_CALLBACK {
        paths.OpenCallback(path, d.args.ret);
      } else {
        paths.CloseCallback(d.args.arg0, d.args.ret);
      }
    }

    /** The callback that the delivery asks for. */
    method Dispatch(d: Delivery, path: string)
      requires paths.Valid() && paths.sources.Valid() && IsWatched(d)
      modifies paths`history, paths`activeFileDescriptors, paths.sources`world, paths.sources.gen
      modifies paths.sources.store`memTaintMap, paths.sources.store`cells
      modifies paths.sources.store`arrays, paths.sources.store`state
      ensures paths.Valid() && paths.sources.Valid()
      ensures fresh(paths.sources.store.arrays - old(paths.sources.store.arrays))
      ensures paths.history == old(paths.history) + [FileEvent(d, path)]
      ensures paths.sources.world ==
              Effect(old(paths.sources.world), old(paths.history), [FileEvent(d, path)], paths.observeEverything)
    {
      if d.callback == READ_CALLBACK {
        paths.ReadCallback(d.args.arg0, d.args.arg1, d.args.ret);
      } else {
        DispatchToTable(d, path);
      }
    }

    method OnBegin(tid: nat, args: Args)
      requires Valid()
      modifies this, syscalls
      ensures Valid() && happened == old(happened) + [Begins(tid, args)]
    {
      SeenNext(happened, Begins(tid, args));
      syscalls.BeginSyscall(tid, args);
      happened := happened + [Begins(tid, args)];
    }

    method OnEnd(tid: nat, ret: int, err: int, path: string)
      requires Valid()
      modifies this, syscalls, paths`history, paths`activeFileDescriptors, paths.sources`world, paths.sources.gen
      modifies paths.sources.store`memTaintMap, paths.sources.store`cells
      modifies paths.sources.store`arrays, paths.sources.store`state
      ensures Valid() && happened == old(happened) + [Ends(tid, ret, err, path)]
      ensures paths.history == old(paths.history) + FileEvents(old(happened), Ends(tid, ret, err, path))
      ensures paths.sources.world ==
              Effect(old(paths.sources.world), old(paths.history),
                     FileEvents(old(happened), Ends(tid, ret, err, path)), paths.observeEverything)
    {
      ghost var h := Ends(tid, ret, err, path);
      ghost var events := FileEvents(happened, h);
      var calls := Complete(tid, ret, err, path);
      DispatchAll(calls, path, events);
      happened := happened + [h];
    }

    method Complete(tid: nat, ret: int, err: int, ghost path: string) returns (calls: seq<Delivery>)
      requires syscalls.Valid() && syscalls.history == Seen(happened)
      modifies syscalls
      ensures syscalls.Valid() && syscalls.history == Seen(happened + [Ends(tid, ret, err, path)])
      ensures Delivers(calls, path, FileEvents(happened, Ends(tid, ret, err, path)))
    {
      DueAtEnd(happened, tid, ret, err);
      SeenNext(happened, Ends(tid, ret, err, path));
      calls := syscalls.EndSyscall(tid, ret, err);
    }

    method Handle(h: Happening)
      requires Valid()
      modifies this, syscalls, paths`history, paths`activeFileDescriptors, paths.sources`world, paths.sources.gen
      modifies paths.sources.store`memTaintMap, paths.sources.store`cells
      modifies paths.sources.store`arrays, paths.sources.store`state
      ensures Valid() && happened == old(happened) + [h]
      ensures paths.history == old(paths.history) + FileEvents(old(happened), h)
      ensures paths.sources.world ==
              Effect(old(paths.sources.world), old(paths.history),
                     FileEvents(old(happened), h), paths.observeEverything)
    {
      match h {
        case Begins(tid, args) => OnBegin(tid, args);
        case Ends(tid, ret, err, path) => OnEnd(tid, ret, err, path);
      }
    }

    /** The first n happenings have been handled, starting from world w and file history `before`. */
    ghost predicate Followed(w: World, before: seq<PathEvent>, hs: seq<Happening>, n: nat)
      requires n <= |hs| && IsGen(w.gen)
      reads this, syscalls, paths, paths.sources, paths.sources.gen, paths.sources.store, paths.sources.store.arrays
    {
      && Valid() && happened == hs[..n] && paths.history == before + AllFileEvents(hs[..n])
      && paths.sources.world == AllEffects(w, before, hs[..n], paths.observeEverything)
    }

    method HandleNext(hs: seq<Happening>, n: nat, ghost w: World, ghost before: seq<PathEvent>)
      requires n < |hs| && IsGen(w.gen) && Followed(w, before, hs, n)
      modifies this, syscalls, paths`history, paths`activeFileDescriptors, paths.sources`world, paths.sources.gen
      modifies paths.sources.store`memTaintMap, paths.sources.store`cells
      modifies paths.sources.store`arrays, paths.sources.store`state
      ensures Followed(w, before, hs, n + 1)
    {
      EffectsNext(w, before, hs, n, paths.observeEverything);
      Handle(hs[n]);
    }

    method HandleEach(hs: seq<Happening>, ghost w: World, ghost before: seq<PathEvent>)
      requires IsGen(w.gen) && Followed(w, before, hs, 0)
      modifies this, syscalls, paths`history, paths`activeFileDescriptors, paths.sources`world, paths.sources.gen
      modifies paths.sources.store`memTaintMap, paths.sources.store`cells
      modifies paths.sources.store`arrays, paths.sources.store`state
      ensures Followed(w, before, hs, |hs|)
    {
      for i := 0 to |hs|
        invariant Followed(w, before, hs, i)
      {
        HandleNext(hs, i, w, before);
      }
    }

    /**
      For every interleaving of begins and ends: the file table follows the calls as their threads
      began them, and taint changes at the ends of reads alone, as EndOfRead says.
    */
    method HandleAll(hs: seq<Happening>)
      requires Valid() && happened == []
      modifies this, syscalls, paths`history, paths`activeFileDescriptors, paths.sources`world, paths.sources.gen
      modifies paths.sources.store`memTaintMap, paths.sources.store`cells
      modifies paths.sources.store`arrays, paths.sources.store`state
      ensures Valid() && happened == hs && paths.history == old(paths.history) + AllFileEvents(hs)
      ensures paths.sources.world ==
              AllEffects(old(paths.sources.world), old(paths.history), hs, paths.observeEverything)
    {
      HandleEach(hs, paths.sources.world, paths.history);
      assert hs[..|hs|] == hs;
    }

    /** Each of the calls that is watched has one observer. */
    method DispatchAll(calls: seq<Delivery>, path: string, ghost events: seq<PathEvent>)
      requires paths.Valid() && paths.sources.Valid()
      requires Delivers(calls, path, events)
      modifies paths`history, paths`activeFileDescriptors, paths.sources`world, paths.sources.gen
      modifies paths.sources.store`memTaintMap, paths.sources.store`cells
      modifies paths.sources.store`arrays, paths.sources.store`state
      ensures paths.Valid() && paths.sources.Valid()
      ensures fresh(paths.sources.store.arrays - old(paths.sources.store.arrays))
      ensures paths.history == old(paths.history) + events
      ensures paths.sources.world ==
              Effect(old(paths.sources.world), old(paths.history), events, paths.observeEverything)
    {
      if |calls| > 0 {
        Dispatch(calls[0], path);
      }
    }
  }

  lemma EffectsNext(w: World, before: seq<PathEvent>, hs: seq<Happening>, n: nat, observeEverything: bool)
    requires IsGen(w.gen) && n < |hs|
    ensures hs[..n + 1] == hs[..n] + [hs[n]]
    ensures before + AllFileEvents(hs[..n + 1]) == before + AllFileEvents(hs[..n]) + FileEvents(hs[..n], hs[n])
    ensures AllEffects(w, before, hs[..n + 1], observeEverything) ==
            Effect(AllEffects(w, before, hs[..n], observeEverything), before + AllFileEvents(hs[..n]),
                   FileEvents(hs[..n], hs[n]), observeEverything)
  {
    assert hs[..n + 1][..n] == hs[..n];
  }

  /**
    A thread ends a call: if it had begun a read, and that returned data from a descriptor whose
    latest successful open, not closed since, was of an observed file, then every byte of its buffer
    holds a mark drawn for this read.  Otherwise neither the store nor the generator has changed.
  */
  lemma EndOfRead(w: World, before: seq<PathEvent>, hs: seq<Happening>, k: nat, observeEverything: bool)
    requires IsGen(w.gen) && k < |hs|
    ensures
      var u, v := AllEffects(w, before, hs[..k], observeEverything),
             AllEffects(w, before, hs[..k + 1], observeEverything);
      var args := if hs[k].Ends? then Latest(Seen(hs[..k]), hs[k].tid) else ZERO;
      if hs[k].Ends? && args.num == SYS_READ && hs[k].ret > 0
         && ShouldTaint(before + AllFileEvents(hs[..k]), observeEverything, args.arg0)
      then NewlyTainted(u, v, args.arg1, hs[k].ret) else v == u
  {
    EffectsNext(w, before, hs, k, observeEverything);
    if hs[k].Ends? {
      var args := Latest(Seen(hs[..k]), hs[k].tid);
      ReadTaintsIff(AllEffects(w, before, hs[..k], observeEverything), before + AllFileEvents(hs[..k]),
                    observeEverything, args.arg0, args.arg1, hs[k].ret);
    }
  }

  // ------------------------------------------------------ files, by positions among the happenings

  function BeginsOf(tid: nat): Happening -> bool {
    (h: Happening) => h.Begins? && h.tid == tid
  }

  /** The arguments that count at the end of a call are those with which its thread began a call last. */
  lemma {:induction false} LatestSeen(hs: seq<Happening>, tid: nat)
    ensures forall i :: IsLastWhere(hs, BeginsOf(tid), i) ==> Latest(Seen(hs), tid) == hs[i].args
    ensures Nowhere(hs, BeginsOf(tid)) ==> Latest(Seen(hs), tid) == ZERO
    decreases |hs|
  {
    if hs == [] {
      assert Seen([]) == Activation();
      LatestIsLast(Activation(), tid);
    } else {
      var before, h := hs[..|hs| - 1], hs[|hs| - 1];
      assert hs == before + [h];
      LatestSeen(before, tid);
      SeenNext(before, h);
      assert (Seen(before) + [EventOf(h)])[..|Seen(before)|] == Seen(before);
      forall i
        ensures IsLastWhere(hs, BeginsOf(tid), i) ==> Latest(Seen(hs), tid) == hs[i].args
      {
        LastWhereNext(before, h, BeginsOf(tid), i);
      }
      LastWhereNext(before, h, BeginsOf(tid), 0);
    }
  }

  /** Number k is the end of a successful open that returned the descriptor. */
  ghost predicate OpensAt(hs: seq<Happening>, k: int, fd: int) {
    && 0 <= k < |hs| && hs[k].Ends? && hs[k].ret == fd && fd != -1
    && Latest(Seen(hs[..k]), hs[k].tid).num == SYS_OPEN
  }

  /** Number k is the end of a successful close of the descriptor. */
  ghost predicate ClosesAt(hs: seq<Happening>, k: int, fd: int) {
    && 0 <= k < |hs| && hs[k].Ends? && hs[k].ret != -1
    && Latest(Seen(hs[..k]), hs[k].tid).num == SYS_CLOSE && Latest(Seen(hs[..k]), hs[k].tid).arg0 == fd
  }

  /** The descriptor is opened at k, and from then on neither opened nor closed. */
  ghost predicate OpenSince(hs: seq<Happening>, k: int, fd: int) {
    OpensAt(hs, k, fd) && forall j :: k < j < |hs| ==> !OpensAt(hs, j, fd) && !ClosesAt(hs, j, fd)
  }

  lemma AtEarlier(hs: seq<Happening>, n: nat, k: int, fd: int)
    requires n <= |hs| && k < n
    ensures OpensAt(hs[..n], k, fd) <==> OpensAt(hs, k, fd)
    ensures ClosesAt(hs[..n], k, fd) <==> ClosesAt(hs, k, fd)
  {
    if 0 <= k {
      assert hs[..n][..k] == hs[..k];
    }
  }

  lemma OpenSinceNext(hs: seq<Happening>, k: int, fd: int)
    requires hs != []
    ensures
      var n := |hs| - 1;
      OpenSince(hs, k, fd) <==>
        if k == n then OpensAt(hs, n, fd) else OpenSince(hs[..n], k, fd) && !OpensAt(hs, n, fd) && !ClosesAt(hs, n, fd)
  {
    var n := |hs| - 1;
    forall j | j < n
      ensures OpensAt(hs[..n], j, fd) <==> OpensAt(hs, j, fd)
      ensures ClosesAt(hs[..n], j, fd) <==> ClosesAt(hs, j, fd)
    {
      AtEarlier(hs, n, j, fd);
    }
  }

  lemma OpenAsNext(hs: seq<Happening>, fd: int)
    requires hs != []
    ensures
      var n := |hs| - 1;
      OpenAs(AllFileEvents(hs), fd) ==
        if OpensAt(hs, n, fd) then Some(hs[n].path)
        else if ClosesAt(hs, n, fd) then None
        else OpenAs(AllFileEvents(hs[..n]), fd)
  {
    var n := |hs| - 1;
    var before, more := AllFileEvents(hs[..n]), FileEvents(hs[..n], hs[n]);
    if more == [] {
      assert before + more == before;
    } else {
      assert |more| == 1 && (before + more)[..|before|] == before && (before + more)[|before|] == more[0];
    }
  }

  /**
    For every interleaving of the threads: a descriptor is open as a path if and only if some
    thread's open of the path returned it, and since then no open that ended returned it and no
    close of it that ended succeeded.
  */
  lemma {:induction false} FileIsOpenIff(hs: seq<Happening>, fd: int, path: string)
    ensures OpenAs(AllFileEvents(hs), fd) == Some(path) <==>
            exists k :: OpenSince(hs, k, fd) && hs[k].path == path
    decreases |hs|
  {
    if hs != [] {
      var n := |hs| - 1;
      OpenAsNext(hs, fd);
      FileIsOpenIff(hs[..n], fd, path);
      forall k
        ensures OpenSince(hs, k, fd) <==>
                if k == n then OpensAt(hs, n, fd)
                else OpenSince(hs[..n], k, fd) && !OpensAt(hs, n, fd) && !ClosesAt(hs, n, fd)
      {
        OpenSinceNext(hs, k, fd);
      }
    }
  }

  ghost predicate IsWatched(d: Delivery) {
    d.callback == OPEN_CALLBACK || d.callback == CLOSE_CALLBACK || d.callback == READ_CALLBACK
  }

  /** What is delivered at the end of a call, and what it means for files. */
  ghost predicate Delivers(calls: seq<Delivery>, path: string, events: seq<PathEvent>) {
    || (calls == [] && events == [])
    || (|calls| == 1 && IsWatched(calls[0]) && events == [FileEvent(calls[0], path)])
  }

  ghost function FileEvent(d: Delivery, path: string): PathEvent {
    if d.callback == OPEN_CALLBACK then Open(path, d.args.ret)
    else if d.callback == CLOSE_CALLBACK then Close(d.args.arg0, d.args.ret)
    else Read(d.args.arg0, d.args.arg1, d.args.ret)
  }
}
