/** The queue of DMA requests between main and auxiliary memory: requests of high priority run whole, requests of
    low priority run in chunks between them. */
module DmaQueue {

  datatype Option<T> = None | Some(value: T)

  /** What a caller asks for. */
  datatype Order = Order(hi: bool, dir: nat, aram: int, mram: int, len: nat)

  /** A request block: the id stands for its address, and the words change while it is served in chunks. */
  datatype Request = Request(id: nat, dir: nat, aram: int, mram: int, len: nat)

  // ---- what happened ----

  datatype Event =
    | Post(order: Order)
    | Dma(id: nat, dir: nat, aram: int, mram: int, len: nat, chunk: nat)
    | Interrupt
    | Callback(done: nat)

  /** The orders posted so far; an order's index is its id. */
  ghost function Orders(log: seq<Event>): (o: seq<Order>)
  {
    if log == [] then [] else
    var o := Orders(log[..|log| - 1]);
    if log[|log| - 1].Post? then o + [log[|log| - 1].order] else o
  }

  /** How much of order id has been handed to the hardware. */
  ghost function Issued(log: seq<Event>, id: nat): nat {
    if log == [] then 0 else
    Issued(log[..|log| - 1], id) + var e := log[|log| - 1]; if e.Dma? && e.id == id then e.len else 0
  }

  ghost predicate Begun(log: seq<Event>, id: nat) {
    log != [] && (Begun(log[..|log| - 1], id) || (log[|log| - 1].Dma? && log[|log| - 1].id == id))
  }

  ghost predicate CalledBack(log: seq<Event>, id: nat) {
    log != [] && (CalledBack(log[..|log| - 1], id) || log[|log| - 1] == Callback(id))
  }

  /** Transfers started and not yet reported by an interrupt. */
  ghost function Outstanding(log: seq<Event>): int {
    if log == [] then 0 else
    Outstanding(log[..|log| - 1])
      + match log[|log| - 1] case Dma(_, _, _, _, _, _) => 1 case Interrupt => -1 case _ => 0
  }

  /** All orders posted before `id` with priority `hi` have been called back. */
  ghost predicate ServedBefore(log: seq<Event>, hi: bool, id: nat) {
    forall j: nat {:trigger CalledBack(log, j)} :: j < id && j < |Orders(log)| && Orders(log)[j].hi == hi ==>
      CalledBack(log, j)
  }

  /** The transfer continues order id where its last one ended, alone on the hardware, first come first served; an order
      of low priority gets a chunk at a time, and only when no order of high priority waits. */
  ghost predicate DmaOK(h: seq<Event>, e: Event)
    requires e.Dma?
  {
    && e.id < |Orders(h)| && !CalledBack(h, e.id) && Outstanding(h) == 0
    && var o := Orders(h)[e.id];
       && e.dir == o.dir && e.aram == o.aram + Issued(h, e.id) && e.mram == o.mram + Issued(h, e.id)
       && (Begun(h, e.id) ==> Issued(h, e.id) < o.len)
       && (o.hi ==> e.len == o.len && !Begun(h, e.id))
       && (!o.hi ==> var rest := o.len - Issued(h, e.id); e.len == if rest <= e.chunk then rest else e.chunk)
       && ServedBefore(h, o.hi, e.id) && (!o.hi ==> ServedBefore(h, true, |Orders(h)|))
  }

  /** A callback comes once, when all of its order has been transferred. */
  ghost predicate CallbackOK(h: seq<Event>, id: nat) {
    id < |Orders(h)| && !CalledBack(h, id) && Begun(h, id) && Issued(h, id) == Orders(h)[id].len && Outstanding(h) == 0
  }

  ghost predicate EventOK(h: seq<Event>, e: Event) {
    match e
    case Post(_) => true
    case Dma(_, _, _, _, _, _) => DmaOK(h, e)
    case Interrupt => Outstanding(h) == 1
    case Callback(id) => CallbackOK(h, id)
  }

  /** A run all of whose events are as they should be. */
  ghost predicate Proper(log: seq<Event>) {
    log == [] || (Proper(log[..|log| - 1]) && EventOK(log[..|log| - 1], log[|log| - 1]))
  }

  // ---- what a proper run amounts to ----

  /** At most one transfer is outstanding at any time. */
  lemma {:induction false} OneAtATime(log: seq<Event>)
    requires Proper(log)
    ensures 0 <= Outstanding(log) <= 1
  {
    if log == [] {
    } else {
      OneAtATime(log[..|log| - 1]);
    }
  }

  lemma {:induction false} NothingIssued(log: seq<Event>, id: nat)
    requires !Begun(log, id)
    ensures Issued(log, id) == 0
  {
    if log == [] {
    } else {
      NothingIssued(log[..|log| - 1], id);
    }
  }

  lemma {:induction false} NotYet(log: seq<Event>, id: nat)
    requires Proper(log) && id >= |Orders(log)|
    ensures Issued(log, id) == 0 && !Begun(log, id) && !CalledBack(log, id)
  {
    if log == [] {
    } else {
      NotYet(log[..|log| - 1], id);
    }
  }

  /** No order is transferred beyond its end. */
  lemma {:induction false} NotTooMuch(log: seq<Event>, id: nat)
    requires Proper(log) && id < |Orders(log)|
    ensures Issued(log, id) <= Orders(log)[id].len
  {
    if log == [] {
    } else {
      var h, e := log[..|log| - 1], log[|log| - 1];
      if id < |Orders(h)| {
        NotTooMuch(h, id);
        if !Begun(h, id) { NothingIssued(h, id); }
      } else {
        NotYet(h, id);
      }
    }
  }

  /** The transfers of one order, in the order of time. */
  ghost function Segments(log: seq<Event>, id: nat): seq<Event> {
    if log == [] then [] else
    var e := log[|log| - 1];
    Segments(log[..|log| - 1], id) + if e.Dma? && e.id == id then [e] else []
  }

  /** The segments cover [aram, aram + n) and [mram, mram + n) without gap or overlap, in order. */
  ghost predicate Tile(s: seq<Event>, o: Order, n: nat) {
    if s == [] then n == 0 else
    var e := s[|s| - 1];
    e.Dma? && e.len <= n && e.dir == o.dir && e.aram == o.aram + (n - e.len) && e.mram == o.mram + (n - e.len)
      && Tile(s[..|s| - 1], o, n - e.len)
  }

  lemma TileMore(s: seq<Event>, e: Event, o: Order, n: nat)
    requires Tile(s, o, n) && e.Dma? && e.dir == o.dir && e.aram == o.aram + n && e.mram == o.mram + n
    ensures Tile(s + [e], o, n + e.len)
  {
    assert (s + [e])[..|s|] == s;
  }

  lemma {:induction false} NoSegments(log: seq<Event>, id: nat)
    requires Proper(log) && id >= |Orders(log)|
    ensures Segments(log, id) == []
  {
    if log == [] {
    } else {
      NoSegments(log[..|log| - 1], id);
    }
  }

  lemma SegmentsStep(log: seq<Event>, id: nat)
    requires log != []
    ensures var h, e := log[..|log| - 1], log[|log| - 1];
            && Orders(log) == (if e.Post? then Orders(h) + [e.order] else Orders(h))
            && Segments(log, id) == (if e.Dma? && e.id == id then Segments(h, id) + [e] else Segments(h, id))
            && Issued(log, id) == Issued(h, id) + (if e.Dma? && e.id == id then e.len else 0)
            && (CalledBack(log, id) <==> CalledBack(h, id) || e == Callback(id))
  {
    assert Segments(log[..|log| - 1], id) + [] == Segments(log[..|log| - 1], id);
  }

  /** The segments of every order tile what has been transferred of it, and after the callback all of it. */
  lemma {:induction false} SegmentsTile(log: seq<Event>, id: nat)
    requires Proper(log) && id < |Orders(log)|
    ensures Tile(Segments(log, id), Orders(log)[id], Issued(log, id))
    ensures CalledBack(log, id) ==> Issued(log, id) == Orders(log)[id].len
  {
    if log == [] {
    } else {
      hide Tile, ServedBefore, Begun, Outstanding, CalledBack, Segments, Issued, Orders;
      var h, e := log[..|log| - 1], log[|log| - 1];
      SegmentsStep(log, id);
      if id < |Orders(h)| {
        SegmentsTile(h, id);
        if e.Dma? && e.id == id {
          TileMore(Segments(h, id), e, Orders(h)[id], Issued(h, id));
        }
      } else {
        NotYet(h, id);
        NoSegments(h, id);
      }
    }
  }

  /** Same priority, earlier order: called back before the later one begins. */
  lemma {:induction false} FirstInFirstOut(log: seq<Event>, i: nat, j: nat)
    requires Proper(log) && i < j < |Orders(log)| && Orders(log)[i].hi == Orders(log)[j].hi && Begun(log, j)
    ensures CalledBack(log, i)
  {
    var h, e := log[..|log| - 1], log[|log| - 1];
    if j < |Orders(h)| {
      if Begun(h, j) { FirstInFirstOut(h, i, j); }
    } else {
      NotYet(h, j);
    }
  }

  // ---- the state behind a run ----

  datatype State = State(queueHi: seq<Request>, queueLo: seq<Request>, pendingHi: Option<Request>,
                         pendingLo: Option<Request>,
                         callbackHi: bool, callbackLo: bool)

  /** The requests of one priority that are not finished, in the order of service. */
  ghost function Waiting(pending: Option<Request>, queue: seq<Request>): seq<Request> {
    (if pending.Some? then [pending.value] else []) + queue
  }

  ghost predicate Ascending(s: seq<Request>) {
    forall i, j :: 0 <= i < j < |s| ==> s[i].id < s[j].id
  }

  ghost predicate HasId(s: seq<Request>, id: nat) {
    exists i :: 0 <= i < |s| && s[i].id == id
  }

  ghost predicate Member(log: seq<Event>, hi: bool, r: Request) {
    r.id < |Orders(log)| && Orders(log)[r.id].hi == hi
  }

  ghost predicate Settled(log: seq<Event>, hi: bool, s: seq<Request>, id: nat) {
    id < |Orders(log)| && Orders(log)[id].hi == hi ==> (CalledBack(log, id) <==> !HasId(s, id))
  }

  /** The waiting requests of a priority are exactly its orders without callback. */
  ghost predicate WaitingOK(log: seq<Event>, hi: bool, s: seq<Request>) {
    && Ascending(s)
    && (forall i {:trigger Member(log, hi, s[i])} :: 0 <= i < |s| ==> Member(log, hi, s[i]))
    && (forall id: nat {:trigger Settled(log, hi, s, id)} :: Settled(log, hi, s, id))
  }

  /** r holds what is left of its order. */
  ghost predicate Rest(log: seq<Event>, r: Request) {
    r.id < |Orders(log)|
    && var o, n := Orders(log)[r.id], Issued(log, r.id);
       r.dir == o.dir && r.aram == o.aram + n && r.mram == o.mram + n && r.len == o.len - n
  }

  ghost predicate Fresh(log: seq<Event>, r: Request) {
    Rest(log, r) && !Begun(log, r.id)
  }

  ghost predicate Untouched(log: seq<Event>, s: seq<Request>) {
    forall i {:trigger Fresh(log, s[i])} :: 0 <= i < |s| ==> Fresh(log, s[i])
  }

  /** All of r has been handed to the hardware. */
  ghost predicate Complete(log: seq<Event>, r: Request) {
    r.id < |Orders(log)| && Begun(log, r.id) && Issued(log, r.id) == Orders(log)[r.id].len
  }

  ghost predicate Core(log: seq<Event>, s: State) {
    && Proper(log)
    && WaitingOK(log, true, Waiting(s.pendingHi, s.queueHi)) && WaitingOK(log, false, Waiting(s.pendingLo, s.queueLo))
    && Untouched(log, s.queueHi) && Untouched(log, s.queueLo)
    && s.callbackHi == s.pendingHi.Some? && (s.callbackLo ==> s.pendingLo.Some? && s.pendingHi.None?)
    && (s.pendingHi.Some? ==> Complete(log, s.pendingHi.value))
    && (s.pendingLo.Some? ==>
          if s.callbackLo then Complete(log, s.pendingLo.value)
          else Rest(log, s.pendingLo.value) && Begun(log, s.pendingLo.value.id) && s.pendingLo.value.len > 0)
  }

  /** Between interrupts: exactly one transfer is outstanding, unless there is nothing to do at all. */
  ghost predicate Steady(log: seq<Event>, s: State) {
    && Core(log, s)
    && Outstanding(log) == (if s.pendingHi.Some? || s.pendingLo.Some? then 1 else 0)
    && (s.pendingHi.None? && s.pendingLo.None? ==> s.queueHi == [] && s.queueLo == [])
  }

  lemma Appended(log: seq<Event>, e: Event)
    ensures (log + [e])[..|log|] == log && (log + [e])[|log|] == e
    ensures Orders(log + [e]) == Orders(log) + if e.Post? then [e.order] else []
    ensures Proper(log + [e]) <==> Proper(log) && EventOK(log, e)
    ensures Outstanding(log + [e])
            == Outstanding(log) + match e case Dma(_, _, _, _, _, _) => 1 case Interrupt => -1 case _ => 0
  {
    assert (log + [e])[..|log|] == log;
  }

  lemma AppendedFor(log: seq<Event>, e: Event, id: nat)
    ensures Issued(log + [e], id) == Issued(log, id) + if e.Dma? && e.id == id then e.len else 0
    ensures Begun(log + [e], id) <==> Begun(log, id) || (e.Dma? && e.id == id)
    ensures CalledBack(log + [e], id) <==> CalledBack(log, id) || e == Callback(id)
  {
    assert (log + [e])[..|log|] == log;
  }

  /** What a later event that does not concern r leaves true of it. */
  lemma Unconcerned(log: seq<Event>, e: Event, r: Request)
    requires !(e.Dma? && e.id == r.id)
    ensures Rest(log, r) ==> Rest(log + [e], r)
    ensures Fresh(log, r) ==> Fresh(log + [e], r)
    ensures Complete(log, r) ==> Complete(log + [e], r)
    ensures r.id < |Orders(log)| && Begun(log, r.id) ==> Begun(log + [e], r.id)
  {
    hide Orders, Issued, Begun;
    Appended(log, e);
    AppendedFor(log, e, r.id);
  }

  lemma UntouchedKept(log: seq<Event>, e: Event, s: seq<Request>)
    requires Untouched(log, s) && forall i :: 0 <= i < |s| ==> !(e.Dma? && e.id == s[i].id)
    ensures Untouched(log + [e], s)
  {
    hide Fresh;
    var l := log + [e];
    forall i | 0 <= i < |s|
      ensures Fresh(l, s[i])
    {
      assert Fresh(log, s[i]);
      Unconcerned(log, e, s[i]);
    }
  }

  lemma WaitingMore(p: Option<Request>, q: seq<Request>, r: Request)
    ensures Waiting(p, q + [r]) == Waiting(p, q) + [r]
  {
  }

  lemma PendingKnown(log: seq<Event>, s: State)
    requires Core(log, s) && s.pendingLo.Some?
    ensures s.pendingLo.value.id < |Orders(log)|
  {
    hide Proper, Orders, Issued, Begun, CalledBack, WaitingOK, Untouched;
  }

  lemma FreshPost(log: seq<Event>, o: Order, r: Request)
    requires Proper(log) && r == Request(|Orders(log)|, o.dir, o.aram, o.mram, o.len)
    ensures Fresh(log + [Post(o)], r) && Member(log + [Post(o)], o.hi, r) && !CalledBack(log + [Post(o)], r.id)
  {
    hide Proper, Orders, Issued, Begun, CalledBack;
    Appended(log, Post(o));
    AppendedFor(log, Post(o), r.id);
    NotYet(log, r.id);
    NothingIssued(log, r.id);
  }

  lemma UntouchedMore(log: seq<Event>, s: seq<Request>, r: Request)
    requires Untouched(log, s) && Fresh(log, r)
    ensures Untouched(log, s + [r])
  {
    hide Fresh;
    var s' := s + [r];
    forall i | 0 <= i < |s'|
      ensures Fresh(log, s'[i])
    {
      if i < |s| { assert Fresh(log, s[i]); }
    }
  }

  lemma AscendingMore(log: seq<Event>, hi: bool, w: seq<Request>, r: Request)
    requires WaitingOK(log, hi, w) && r.id >= |Orders(log)|
    ensures Ascending(w + [r])
  {
    hide Orders, Settled;
    forall i | 0 <= i < |w|
      ensures w[i].id < r.id
    {
      assert Member(log, hi, w[i]);
    }
  }

  lemma HasIdLast(w: seq<Request>, r: Request)
    ensures HasId(w + [r], r.id)
  {
    assert (w + [r])[|w|].id == r.id;
  }

  lemma HasIdMore(w: seq<Request>, r: Request, id: nat)
    requires id != r.id
    ensures HasId(w + [r], id) <==> HasId(w, id)
  {
    if HasId(w, id) {
      var i :| 0 <= i < |w| && w[i].id == id;
      assert (w + [r])[i].id == id;
    }
  }

  lemma WaitingPost(log: seq<Event>, o: Order, hi: bool, w: seq<Request>, r: Request)
    requires Proper(log) && WaitingOK(log, hi, w) && r == Request(|Orders(log)|, o.dir, o.aram, o.mram, o.len)
    ensures WaitingOK(log + [Post(o)], hi, if o.hi == hi then w + [r] else w)
  {
    hide Proper, Orders, CalledBack, HasId;
    var e := Post(o);
    var l, w' := log + [e], if o.hi == hi then w + [r] else w;
    Appended(log, e);
    FreshPost(log, o, r);
    forall i | 0 <= i < |w'|
      ensures Member(l, hi, w'[i])
    {
      if i < |w| { assert Member(log, hi, w[i]); }
    }
    AscendingMore(log, hi, w, r);
    forall id: nat
      ensures Settled(l, hi, w', id)
    {
      AppendedFor(log, e, id);
      if id == r.id {
        HasIdLast(w, r);
      } else {
        assert Settled(log, hi, w, id);
        HasIdMore(w, r, id);
      }
    }
  }

  /** The order is appended to the queue of its priority. */
  ghost function Queued(s: State, o: Order, id: nat): State {
    var r := Request(id, o.dir, o.aram, o.mram, o.len);
    if o.hi then s.(queueHi := s.queueHi + [r]) else s.(queueLo := s.queueLo + [r])
  }

  /** An order is posted to its queue. */
  lemma PostOK(log: seq<Event>, s: State, o: Order)
    requires Core(log, s)
    ensures Core(log + [Post(o)], Queued(s, o, |Orders(log)|))
  {
    hide Proper, Orders, Issued, Begun, CalledBack, WaitingOK, Untouched, Rest, Complete;
    var e := Post(o);
    var r := Request(|Orders(log)|, o.dir, o.aram, o.mram, o.len);
    Appended(log, e);
    FreshPost(log, o, r);
    WaitingPost(log, o, true, Waiting(s.pendingHi, s.queueHi), r);
    WaitingPost(log, o, false, Waiting(s.pendingLo, s.queueLo), r);
    UntouchedKept(log, e, s.queueHi);
    UntouchedKept(log, e, s.queueLo);
    UntouchedMore(log + [e], if o.hi then s.queueHi else s.queueLo, r);
    if s.pendingHi.Some? { Unconcerned(log, e, s.pendingHi.value); }
    if s.pendingLo.Some? {
      PendingKnown(log, s);
      Unconcerned(log, e, s.pendingLo.value);
    }
    WaitingMore(s.pendingHi, s.queueHi, r);
    WaitingMore(s.pendingLo, s.queueLo, r);
  }

  /** Events that neither post nor call back leave the waiting requests as they are. */
  lemma WaitingKept(log: seq<Event>, e: Event, hi: bool, w: seq<Request>)
    requires WaitingOK(log, hi, w) && !e.Post? && !e.Callback?
    ensures WaitingOK(log + [e], hi, w)
  {
    hide Orders, CalledBack, HasId;
    var l := log + [e];
    Appended(log, e);
    forall i | 0 <= i < |w|
      ensures Member(l, hi, w[i])
    {
      assert Member(log, hi, w[i]);
    }
    forall id: nat
      ensures Settled(l, hi, w, id)
    {
      AppendedFor(log, e, id);
      assert Settled(log, hi, w, id);
    }
  }

  lemma InterruptOK(log: seq<Event>, s: State)
    requires Core(log, s) && Outstanding(log) == 1
    ensures Core(log + [Interrupt], s) && Outstanding(log + [Interrupt]) == 0
  {
    hide Proper, Orders, Issued, Begun, CalledBack, WaitingOK, Untouched, Rest, Complete;
    var e := Interrupt;
    Appended(log, e);
    WaitingKept(log, e, true, Waiting(s.pendingHi, s.queueHi));
    WaitingKept(log, e, false, Waiting(s.pendingLo, s.queueLo));
    UntouchedKept(log, e, s.queueHi);
    UntouchedKept(log, e, s.queueLo);
    if s.pendingHi.Some? { Unconcerned(log, e, s.pendingHi.value); }
    if s.pendingLo.Some? {
      PendingKnown(log, s);
      Unconcerned(log, e, s.pendingLo.value);
    }
  }

  lemma TailHasId(r: Request, q: seq<Request>, id: nat)
    requires HasId([r] + q, id) && id != r.id
    ensures HasId(q, id)
  {
    var i :| 0 <= i < |[r] + q| && ([r] + q)[i].id == id;
    assert q[i - 1].id == id;
  }

  lemma HeadOnlyOnce(r: Request, q: seq<Request>)
    requires Ascending([r] + q)
    ensures !HasId(q, r.id)
  {
    var w := [r] + q;
    forall i | 0 <= i < |q|
      ensures q[i].id != r.id
    {
      assert w[0].id < w[i + 1].id;
    }
  }

  lemma HasIdFirst(r: Request, q: seq<Request>, id: nat)
    requires Ascending([r] + q)
    ensures HasId([r] + q, id) <==> id == r.id || HasId(q, id)
    ensures !HasId(q, r.id)
  {
    hide Ascending;
    var w := [r] + q;
    assert w[0] == r;
    if HasId(w, id) && id != r.id { TailHasId(r, q, id); }
    if HasId(q, id) {
      var i :| 0 <= i < |q| && q[i].id == id;
      assert w[i + 1].id == id;
    }
    HeadOnlyOnce(r, q);
  }

  /** The first waiting request is called back and leaves. */
  lemma WaitingDone(log: seq<Event>, hi: bool, r: Request, q: seq<Request>)
    requires WaitingOK(log, hi, [r] + q)
    ensures WaitingOK(log + [Callback(r.id)], hi, q)
    ensures !CalledBack(log, r.id) && Member(log, hi, r)
  {
    hide Orders, CalledBack;
    var e, w := Callback(r.id), [r] + q;
    var l := log + [e];
    Appended(log, e);
    assert w[0] == r && Member(log, hi, w[0]) && Settled(log, hi, w, r.id);
    forall i | 0 <= i < |q|
      ensures Member(l, hi, q[i])
    {
      assert w[i + 1] == q[i] && Member(log, hi, w[i + 1]);
    }
    forall i, j | 0 <= i < j < |q|
      ensures q[i].id < q[j].id
    {
      assert w[i + 1].id < w[j + 1].id;
    }
    forall id: nat
      ensures Settled(l, hi, q, id)
    {
      AppendedFor(log, e, id);
      assert Settled(log, hi, w, id);
      HasIdFirst(r, q, id);
    }
  }

  /** The other priority does not notice. */
  lemma WaitingOther(log: seq<Event>, hi: bool, w: seq<Request>, id: nat)
    requires WaitingOK(log, hi, w) && id < |Orders(log)| && Orders(log)[id].hi != hi
    ensures WaitingOK(log + [Callback(id)], hi, w)
  {
    hide Orders, CalledBack, HasId;
    var e := Callback(id);
    var l := log + [e];
    Appended(log, e);
    forall i | 0 <= i < |w|
      ensures Member(l, hi, w[i])
    {
      assert Member(log, hi, w[i]);
    }
    forall j: nat
      ensures Settled(l, hi, w, j)
    {
      AppendedFor(log, e, j);
      assert Settled(log, hi, w, j);
    }
  }

  lemma CallbackHiOK(log: seq<Event>, s: State)
    requires Core(log, s) && Outstanding(log) == 0 && s.pendingHi.Some?
    ensures var l := log + [Callback(s.pendingHi.value.id)];
            Core(l, s.(pendingHi := None, callbackHi := false)) && Outstanding(l) == 0
  {
    hide Proper, Orders, Issued, Begun, CalledBack, WaitingOK, Untouched, Rest;
    var r := s.pendingHi.value;
    var e := Callback(r.id);
    Appended(log, e);
    WaitingDone(log, true, r, s.queueHi);
    WaitingOther(log, false, Waiting(s.pendingLo, s.queueLo), r.id);
    assert Waiting(None, s.queueHi) == s.queueHi;
    UntouchedKept(log, e, s.queueHi);
    UntouchedKept(log, e, s.queueLo);
    if s.pendingLo.Some? {
      PendingKnown(log, s);
      Unconcerned(log, e, s.pendingLo.value);
    }
  }

  lemma CallbackLoOK(log: seq<Event>, s: State)
    requires Core(log, s) && Outstanding(log) == 0 && s.callbackLo
    ensures s.pendingLo.Some?
    ensures var l := log + [Callback(s.pendingLo.value.id)];
            Core(l, s.(pendingLo := None, callbackLo := false)) && Outstanding(l) == 0
  {
    hide Proper, Orders, Issued, Begun, CalledBack, WaitingOK, Untouched, Rest;
    var r := s.pendingLo.value;
    var e := Callback(r.id);
    Appended(log, e);
    WaitingDone(log, false, r, s.queueLo);
    WaitingOther(log, true, Waiting(s.pendingHi, s.queueHi), r.id);
    assert Waiting(None, s.queueLo) == s.queueLo;
    UntouchedKept(log, e, s.queueHi);
    UntouchedKept(log, e, s.queueLo);
  }

  lemma NoneBelow(w: seq<Request>, j: nat)
    requires Ascending(w) && w != [] && j < w[0].id
    ensures !HasId(w, j)
  {
    forall i | 0 <= i < |w|
      ensures w[i].id != j
    {
      if i > 0 { assert w[0].id < w[i].id; }
    }
  }

  /** Everything before the first waiting request has been served. */
  lemma FirstServed(log: seq<Event>, hi: bool, r: Request, q: seq<Request>)
    requires WaitingOK(log, hi, [r] + q)
    ensures ServedBefore(log, hi, r.id) && !CalledBack(log, r.id) && Member(log, hi, r)
  {
    hide Orders, CalledBack;
    var w := [r] + q;
    assert w[0] == r && Member(log, hi, w[0]);
    assert Settled(log, hi, w, r.id) && HasId(w, r.id);
    forall j: nat | j < r.id && j < |Orders(log)| && Orders(log)[j].hi == hi
      ensures CalledBack(log, j)
    {
      assert Settled(log, hi, w, j);
      NoneBelow(w, j);
    }
  }

  lemma AllServed(log: seq<Event>, hi: bool)
    requires WaitingOK(log, hi, [])
    ensures ServedBefore(log, hi, |Orders(log)|)
  {
    hide Orders, CalledBack;
    forall j: nat | j < |Orders(log)| && Orders(log)[j].hi == hi
      ensures CalledBack(log, j)
    {
      assert Settled(log, hi, [], j);
    }
  }

  ghost function Start(r: Request, n: nat, chunk: nat): Event {
    Dma(r.id, r.dir, r.aram, r.mram, n, chunk)
  }

  lemma QueueOf(p: Option<Request>, q: seq<Request>)
    ensures forall i :: 0 <= i < |q| ==> Waiting(p, q)[i + if p.Some? then 1 else 0] == q[i]
  {
  }

  lemma FreshHead(log: seq<Event>, r: Request, q: seq<Request>)
    requires Untouched(log, [r] + q)
    ensures Fresh(log, r) && Untouched(log, q)
  {
    hide Fresh;
    var w := [r] + q;
    assert Fresh(log, w[0]);
    forall i | 0 <= i < |q|
      ensures Fresh(log, q[i])
    {
      assert Fresh(log, w[i + 1]) && w[i + 1] == q[i];
    }
  }

  /** A whole transfer of a fresh request. */
  lemma WholeDma(log: seq<Event>, r: Request, chunk: nat)
    requires Fresh(log, r) && Member(log, true, r) && !CalledBack(log, r.id)
    requires Outstanding(log) == 0 && ServedBefore(log, true, r.id)
    ensures DmaOK(log, Start(r, r.len, chunk)) && Complete(log + [Start(r, r.len, chunk)], r)
  {
    hide Orders, Issued, Begun, CalledBack, ServedBefore;
    NothingIssued(log, r.id);
    Appended(log, Start(r, r.len, chunk));
    AppendedFor(log, Start(r, r.len, chunk), r.id);
  }

  lemma OthersDiffer(log: seq<Event>, hi: bool, r: Request, q: seq<Request>)
    requires WaitingOK(log, hi, [r] + q)
    ensures forall i :: 0 <= i < |q| ==> q[i].id != r.id
  {
    hide Orders, Settled;
    var w := [r] + q;
    forall i | 0 <= i < |q|
      ensures q[i].id != r.id
    {
      assert w[0].id < w[i + 1].id;
    }
  }

  lemma OtherPriority(log: seq<Event>, hi: bool, r: Request, w: seq<Request>)
    requires WaitingOK(log, !hi, w) && Member(log, hi, r)
    ensures forall i :: 0 <= i < |w| ==> w[i].id != r.id
  {
    hide Orders, Settled;
    forall i | 0 <= i < |w|
      ensures w[i].id != r.id
    {
      assert Member(log, !hi, w[i]);
    }
  }

  /** __ARQPopTaskQueueHi on a non-empty queue */
  lemma PopHiOK(log: seq<Event>, s: State, chunk: nat)
    requires Core(log, s) && Outstanding(log) == 0 && s.pendingHi.None? && !s.callbackLo && s.queueHi != []
    ensures var r := s.queueHi[0]; var l := log + [Start(r, r.len, chunk)];
            && Core(l, s.(queueHi := s.queueHi[1..], pendingHi := Some(r), callbackHi := true)) && Outstanding(l) == 1
  {
    hide Proper, Orders, Issued, Begun, CalledBack, WaitingOK, Untouched, Rest, ServedBefore, Fresh;
    var r, q := s.queueHi[0], s.queueHi[1..];
    var e := Start(r, r.len, chunk);
    assert Waiting(None, s.queueHi) == [r] + q == Waiting(Some(r), q);
    FirstServed(log, true, r, q);
    assert s.queueHi == [r] + q;
    FreshHead(log, r, q);
    WholeDma(log, r, chunk);
    Appended(log, e);
    WaitingKept(log, e, true, [r] + q);
    WaitingKept(log, e, false, Waiting(s.pendingLo, s.queueLo));
    OthersDiffer(log, true, r, q);
    UntouchedKept(log, e, q);
    OtherPriority(log, true, r, Waiting(s.pendingLo, s.queueLo));
    QueueOf(s.pendingLo, s.queueLo);
    UntouchedKept(log, e, s.queueLo);
    if s.pendingLo.Some? {
      PendingKnown(log, s);
      assert Waiting(s.pendingLo, s.queueLo)[0] == s.pendingLo.value;
      Unconcerned(log, e, s.pendingLo.value);
    }
  }

  /** The next piece of a request of low priority. */
  lemma ChunkDma(log: seq<Event>, r: Request, chunk: nat)
    requires Rest(log, r) && (Begun(log, r.id) ==> r.len > 0) && Member(log, false, r)
    requires !CalledBack(log, r.id) && Outstanding(log) == 0
    requires ServedBefore(log, false, r.id) && ServedBefore(log, true, |Orders(log)|)
    ensures var n := if r.len <= chunk then r.len else chunk;
            var e := Start(r, n, chunk);
            && DmaOK(log, e)
            && (r.len <= chunk ==> Complete(log + [e], r))
            && (r.len > chunk ==>
              Rest(log + [e], Request(r.id, r.dir, r.aram + chunk, r.mram + chunk, r.len - chunk))
                && Begun(log + [e], r.id))
  {
    hide Orders, Issued, Begun, CalledBack, ServedBefore;
    var n := if r.len <= chunk then r.len else chunk;
    Appended(log, Start(r, n, chunk));
    AppendedFor(log, Start(r, n, chunk), r.id);
  }

  /** The state after a piece of r, the first waiting request of low priority, was started. */
  ghost function ChunkStarted(s: State, r: Request, q: seq<Request>, chunk: nat): State {
    if r.len <= chunk then s.(queueLo := q, pendingLo := Some(r), callbackLo := true)
    else s.(queueLo := q, pendingLo := Some(Request(r.id, r.dir, r.aram + chunk, r.mram + chunk, r.len - chunk)))
  }

  /** Only the ids matter. */
  lemma WaitingSameId(log: seq<Event>, r: Request, r': Request, q: seq<Request>)
    requires WaitingOK(log, false, [r] + q) && r'.id == r.id
    ensures WaitingOK(log, false, [r'] + q)
  {
    hide Orders, CalledBack;
    var w, w' := [r] + q, [r'] + q;
    assert forall i :: 0 <= i < |w| ==> w'[i].id == w[i].id;
    forall i | 0 <= i < |w'|
      ensures Member(log, false, w'[i])
    {
      assert Member(log, false, w[i]);
    }
    forall i, j | 0 <= i < j < |w'|
      ensures w'[i].id < w'[j].id
    {
      assert w[i].id < w[j].id;
    }
    forall id: nat
      ensures Settled(log, false, w', id)
    {
      assert Settled(log, false, w, id);
      HasIdFirst(r, q, id);
      HasIdFirst(r', q, id);
    }
  }

  /** __ARQServiceQueueLo when there is something to serve */
  lemma ServiceLoOK(log: seq<Event>, s: State, r: Request, q: seq<Request>, chunk: nat)
    requires Core(log, s) && Outstanding(log) == 0 && s.pendingHi.None? && s.queueHi == [] && !s.callbackLo
    requires if s.pendingLo.Some? then r == s.pendingLo.value && q == s.queueLo else s.queueLo == [r] + q
    ensures var l := log + [Start(r, if r.len <= chunk then r.len else chunk, chunk)];
            Core(l, ChunkStarted(s, r, q, chunk)) && Outstanding(l) == 1
  {
    hide Proper, Orders, Issued, Begun, CalledBack, WaitingOK, Untouched, Rest, ServedBefore, Complete;
    var e := Start(r, if r.len <= chunk then r.len else chunk, chunk);
    assert Waiting(s.pendingLo, s.queueLo) == [r] + q;
    FirstServed(log, false, r, q);
    assert Waiting(s.pendingHi, s.queueHi) == [];
    AllServed(log, true);
    if s.pendingLo.None? { FreshHead(log, r, q); }
    ChunkDma(log, r, chunk);
    Appended(log, e);
    WaitingKept(log, e, true, []);
    WaitingKept(log, e, false, [r] + q);
    OthersDiffer(log, false, r, q);
    UntouchedKept(log, e, q);
    UntouchedKept(log, e, s.queueHi);
    var s' := ChunkStarted(s, r, q, chunk);
    WaitingSameId(log + [e], r, s'.pendingLo.value, q);
  }

  // ---- how many interrupts are left ----

  /** The transfers a request of n bytes still takes. */
  function Pieces(n: nat, chunk: nat): (p: nat)
    requires chunk > 0
    ensures p > 0
  {
    if n <= chunk then 1 else 1 + Pieces(n - chunk, chunk)
  }

  /** max(1, ceil(n / chunk)) */
  lemma {:induction false} PiecesIs(n: nat, chunk: nat)
    requires chunk > 0
    ensures chunk * (Pieces(n, chunk) - 1) <= n <= chunk * Pieces(n, chunk)
    ensures n > 0 ==> chunk * (Pieces(n, chunk) - 1) < n
    decreases n
  {
    if n > chunk {
      PiecesIs(n - chunk, chunk);
      var p := Pieces(n - chunk, chunk);
      assert chunk * (1 + p) == chunk + chunk * p && chunk * p == chunk + chunk * (p - 1);
    } else {
      assert chunk * 0 == 0 && chunk * 1 == chunk;
    }
  }

  function AllPieces(q: seq<Request>, chunk: nat): nat
    requires chunk > 0
  {
    if q == [] then 0 else Pieces(q[0].len, chunk) + AllPieces(q[1..], chunk)
  }

  lemma {:induction false} AllPiecesMore(q: seq<Request>, r: Request, chunk: nat)
    requires chunk > 0
    ensures AllPieces(q + [r], chunk) == AllPieces(q, chunk) + Pieces(r.len, chunk)
  {
    if q == [] {
      assert (q + [r])[1..] == [];
    } else {
      assert (q + [r])[1..] == q[1..] + [r];
      AllPiecesMore(q[1..], r, chunk);
    }
  }

  /** One interrupt for every request of high priority, and one for every piece of the others; the transfer that is
      outstanding counts, and the words of a request in chunks no longer cover it. */
  ghost function Left(s: State, chunk: nat): nat
    requires chunk > 0
  {
    (if s.pendingHi.Some? then 1 else 0) + |s.queueHi| + AllPieces(s.queueLo, chunk)
    + (if s.pendingLo.None? then 0
       else if s.callbackLo then 1
       else Pieces(s.pendingLo.value.len, chunk) + if s.pendingHi.None? then 1 else 0)
  }

  // ---- the queue ----

  /** With nothing pending and nothing queued, every order has had its callback. */
  lemma AllCalledBack(log: seq<Event>, s: State)
    requires Core(log, s) && s.pendingHi.None? && s.pendingLo.None? && s.queueHi == [] && s.queueLo == []
    ensures forall id: nat {:trigger CalledBack(log, id)} :: id < |Orders(log)| ==> CalledBack(log, id)
  {
    hide Orders, CalledBack, Proper, WaitingOK;
    assert Waiting(s.pendingHi, s.queueHi) == [] && Waiting(s.pendingLo, s.queueLo) == [];
    AllServed(log, true);
    AllServed(log, false);
  }

  function Cost(o: Order, chunk: nat): nat
    requires chunk > 0
  {
    if o.hi then 1 else Pieces(o.len, chunk)
  }

  function CostAll(posts: seq<Order>, chunk: nat): nat
    requires chunk > 0
  {
    if posts == [] then 0 else CostAll(posts[..|posts| - 1], chunk) + Cost(posts[|posts| - 1], chunk)
  }

  /** What is to be started when nothing is outstanding. */
  ghost function Todo(s: State, chunk: nat): nat
    requires chunk > 0
  {
    |s.queueHi| + AllPieces(s.queueLo, chunk) + if s.pendingLo.Some? then Pieces(s.pendingLo.value.len, chunk) else 0
  }

  lemma QueuedLeft(s: State, o: Order, id: nat, chunk: nat)
    requires chunk > 0
    ensures Left(Queued(s, o, id), chunk) == Left(s, chunk) + Cost(o, chunk)
    ensures Todo(Queued(s, o, id), chunk) == Todo(s, chunk) + Cost(o, chunk)
  {
    hide AllPieces, Pieces;
    AllPiecesMore(s.queueLo, Request(id, o.dir, o.aram, o.mram, o.len), chunk);
  }

  lemma ChunkLeft(s: State, r: Request, q: seq<Request>, chunk: nat)
    requires chunk > 0 && s.pendingHi.None? && s.queueHi == [] && !s.callbackLo
    requires if s.pendingLo.Some? then r == s.pendingLo.value && q == s.queueLo else s.queueLo == [r] + q
    ensures Left(ChunkStarted(s, r, q, chunk), chunk) == Todo(s, chunk)
  {
    if s.pendingLo.None? {
      assert s.queueLo[1..] == q;
    }
  }

  lemma NoneLeft(s: State, chunk: nat)
    requires s.pendingHi.None? && s.pendingLo.None? && s.queueHi == [] && s.queueLo == []
    ensures chunk > 0 ==> Left(s, chunk) == 0 == Todo(s, chunk)
  {
  }

  lemma CoreFacts(log: seq<Event>, s: State)
    requires Core(log, s)
    ensures s.callbackHi == s.pendingHi.Some? && (s.callbackLo ==> s.pendingLo.Some? && s.pendingHi.None?)
  {
    hide Proper, WaitingOK, Untouched, Complete, Rest, Begun;
  }

  lemma RoundedDown(s: nat)
    ensures (s - s % 32) % 32 == 0 && s - s % 32 <= s < s - s % 32 + 32
    ensures s - s % 32 == 0 <==> s < 32
  {
    var q := s / 32;
    assert s == 32 * q + s % 32;
    assert (32 * q) % 32 == 0;
  }

  lemma RoundedUp(size: nat)
    requires size < 0x1_0000_0000
    ensures (size + 31) % 0x1_0000_0000 == if size > 0xFFFF_FFE0 then size + 31 - 0x1_0000_0000 else size + 31
  {
  }

  class ArQueue {
    var queueHi: seq<Request>
    var queueLo: seq<Request>
    var pendingHi: Option<Request>
    var pendingLo: Option<Request>
    /** Whether the callback pointers are set. */
    var callbackHi: bool
    var callbackLo: bool
    var chunkSize: nat
    var nextId: nat
    ghost var log: seq<Event>

    ghost function S(): State
      reads this
    {
      State(queueHi, queueLo, pendingHi, pendingLo, callbackHi, callbackLo)
    }

    ghost predicate Valid()
      reads this
    {
      Steady(log, S()) && nextId == |Orders(log)|
    }

    /** ARQ_Init */
    constructor ()
      ensures Valid() && log == [] && chunkSize == 4096
    {
      queueHi, queueLo := [], [];
      pendingHi, pendingLo := None, None;
      callbackHi, callbackLo := false, false;
      chunkSize, nextId := 4096, 0;
      log := [];
    }

    /** ARQ_SetChunkSize: rounds up to a multiple of 32, in 32 bits. */
    method SetChunkSize(size: nat)
      requires Valid() && size < 0x1_0000_0000
      modifies this`chunkSize
      ensures Valid() && log == old(log) && chunkSize % 32 == 0
      ensures chunkSize == 0 <==> size == 0 || size > 0xFFFF_FFE0
      ensures chunkSize > 0 ==> size <= chunkSize < size + 32
    {
      var s := (size + 31) % 0x1_0000_0000;
      RoundedDown(s);
      RoundedUp(size);
      chunkSize := s - s % 32;
    }

    /** The state between operations, or while a callback runs. */
    ghost predicate Postable()
      reads this
    {
      Core(log, S()) && nextId == |Orders(log)| && (pendingHi.Some? || pendingLo.Some? || Steady(log, S()))
    }

    /** __ARQPopTaskQueueHi */
    method PopHi()
      requires Core(log, S()) && Outstanding(log) == 0 && nextId == |Orders(log)| && pendingHi.None? && !callbackLo
      modifies this
      ensures Core(log, S()) && nextId == |Orders(log)| && chunkSize == old(chunkSize)
      ensures forall i :: |old(log)| <= i < |log| && log[i].Dma? ==> log[i].chunk == chunkSize
      ensures nextId == old(nextId) && old(log) <= log
      ensures old(queueHi) == [] ==> S() == old(S()) && log == old(log)
      ensures old(queueHi) != [] ==> pendingHi == Some(old(queueHi)[0]) && Outstanding(log) == 1
      ensures chunkSize > 0 && old(queueHi) != [] ==> Left(S(), chunkSize) == Todo(old(S()), chunkSize)
    {
      hide Core, Orders, Outstanding, AllPieces, Pieces, Proper;
      if queueHi == [] {
        return;
      }
      PopHiOK(log, S(), chunkSize);
      var req := queueHi[0];
      Appended(log, Start(req, req.len, chunkSize));
      CoreFacts(log, S());
      queueHi := queueHi[1..];
      log := log + [Start(req, req.len, chunkSize)];
      callbackHi := true;
      pendingHi := Some(req);
    }

    /** __ARQServiceQueueLo */
    method ServiceLo()
      requires Core(log, S()) && Outstanding(log) == 0 && nextId == |Orders(log)|
      requires pendingHi.None? && !callbackLo && queueHi == []
      modifies this
      ensures Valid() && chunkSize == old(chunkSize) && nextId == old(nextId) && old(log) <= log
      ensures forall i :: |old(log)| <= i < |log| && log[i].Dma? ==> log[i].chunk == chunkSize
      ensures chunkSize > 0 ==> Left(S(), chunkSize) == Todo(old(S()), chunkSize)
    {
      hide Core, Orders, Outstanding, AllPieces, Pieces, Proper;
      ghost var s, l := S(), log;
      CoreFacts(log, s);
      if pendingLo.None? && queueLo != [] {
        pendingLo := Some(queueLo[0]);
        queueLo := queueLo[1..];
      }
      if pendingLo.Some? {
        var req := pendingLo.value;
        ServiceLoOK(l, s, req, queueLo, chunkSize);
        if chunkSize > 0 { ChunkLeft(s, req, queueLo, chunkSize); }
        if req.len <= chunkSize {
          log := log + [Start(req, req.len, chunkSize)];
          callbackLo := true;
        } else {
          log := log + [Start(req, chunkSize, chunkSize)];
          pendingLo := Some(Request(req.id, req.dir, req.aram + chunkSize, req.mram + chunkSize, req.len - chunkSize));
        }
        Appended(l, log[|l|]);
      } else {
        NoneLeft(s, chunkSize);
      }
    }

    /** The calls that start the next transfer, if there is one to start. */
    method Schedule()
      requires Core(log, S()) && Outstanding(log) == 0 && nextId == |Orders(log)| && pendingHi.None? && !callbackLo
      modifies this
      ensures Valid() && chunkSize == old(chunkSize) && nextId == old(nextId) && old(log) <= log
      ensures forall i :: |old(log)| <= i < |log| && log[i].Dma? ==> log[i].chunk == chunkSize
      ensures chunkSize > 0 ==> Left(S(), chunkSize) == Todo(old(S()), chunkSize)
    {
      hide Core, Orders, Outstanding, AllPieces, Pieces, Proper;
      PopHi();
      if pendingHi.None? {
        ServiceLo();
      }
    }

    /** ARQ_PostRequestAsync, also from within a callback. */
    method Post(o: Order) returns (id: nat)
      requires Postable()
      modifies this
      ensures Postable() && (old(Valid()) ==> Valid())
      ensures forall i :: |old(log)| <= i < |log| && log[i].Dma? ==> log[i].chunk == chunkSize
      ensures chunkSize == old(chunkSize) && id == old(nextId) && nextId == id + 1
      ensures old(log) + [Event.Post(o)] <= log
      ensures old(pendingHi.Some? || pendingLo.Some?) ==>
              log == old(log) + [Event.Post(o)] && S() == Queued(old(S()), o, id)
      ensures chunkSize > 0 ==> Left(S(), chunkSize) == Left(old(S()), chunkSize) + Cost(o, chunkSize)
    {
      hide Core, Orders, Outstanding, AllPieces, Pieces, Proper;
      ghost var s, l := S(), log;
      id := nextId;
      var r := Request(id, o.dir, o.aram, o.mram, o.len);
      PostOK(log, S(), o);
      Appended(log, Event.Post(o));
      if chunkSize > 0 { QueuedLeft(s, o, id, chunkSize); }
      CoreFacts(log, s);
      if o.hi {
        queueHi := queueHi + [r];
      } else {
        queueLo := queueLo + [r];
      }
      nextId := nextId + 1;
      log := log + [Event.Post(o)];
      if pendingLo.None? && pendingHi.None? {
        Schedule();
      }
    }

    /** What a callback does to the queue. */
    method PostAll(posts: seq<Order>)
      requires Core(log, S()) && nextId == |Orders(log)|
      requires Outstanding(log) == 0 && (pendingHi.Some? || pendingLo.Some?)
      modifies this
      ensures Core(log, S()) && nextId == |Orders(log)| && Outstanding(log) == 0
      ensures forall i :: |old(log)| <= i < |log| && log[i].Dma? ==> log[i].chunk == chunkSize
      ensures chunkSize == old(chunkSize) && old(log) <= log
      ensures S() == old(S()).(queueHi := queueHi, queueLo := queueLo)
      ensures chunkSize > 0 ==> Left(S(), chunkSize) == Left(old(S()), chunkSize) + CostAll(posts, chunkSize)
    {
      hide Core, Orders, Outstanding, AllPieces, Pieces, Proper;
      ghost var s, l := S(), log;
      var i := 0;
      assert posts[..0] == [];
      while i < |posts|
        invariant 0 <= i <= |posts| && Core(log, S()) && nextId == |Orders(log)|
        invariant Outstanding(log) == 0 && chunkSize == old(chunkSize)
        invariant l <= log && S() == s.(queueHi := queueHi, queueLo := queueLo)
        invariant forall i :: |old(log)| <= i < |log| && log[i].Dma? ==> log[i].chunk == chunkSize
        invariant chunkSize > 0 ==> Left(S(), chunkSize) == Left(s, chunkSize) + CostAll(posts[..i], chunkSize)
      {
        ghost var s1 := S();
        Appended(log, Event.Post(posts[i]));
        var id := Post(posts[i]);
        if chunkSize > 0 {
          QueuedLeft(s1, posts[i], id, chunkSize);
          assert posts[..i + 1][..i] == posts[..i];
        }
        i := i + 1;
      }
      assert posts[..i] == posts;
    }

    /** __ARInterruptServiceRoutine; `posts` are the orders the callback posts. */
    method TransferDone(posts: seq<Order>)
      requires Valid() && (pendingHi.Some? || pendingLo.Some?) && (callbackHi || callbackLo || posts == [])
      modifies this
      ensures Valid() && chunkSize == old(chunkSize)
      ensures forall i :: |old(log)| <= i < |log| && log[i].Dma? ==> log[i].chunk == chunkSize
      ensures old(log) + [Interrupt] <= log
      ensures chunkSize > 0 ==> Left(S(), chunkSize) == Left(old(S()), chunkSize) - 1 + CostAll(posts, chunkSize)
    {
      hide Core, Orders, Outstanding, AllPieces, Pieces, Proper;
      ghost var s := S();
      InterruptOK(log, s);
      Appended(log, Interrupt);
      CoreFacts(log, s);
      log := log + [Interrupt];
      if callbackHi {
        PostAll(posts);
        CallbackHiOK(log, S());
        Appended(log, Callback(pendingHi.value.id));
        log := log + [Callback(pendingHi.value.id)];
        pendingHi := None;
        callbackHi := false;
      } else if callbackLo {
        PostAll(posts);
        CallbackLoOK(log, S());
        Appended(log, Callback(pendingLo.value.id));
        log := log + [Callback(pendingLo.value.id)];
        pendingLo := None;
        callbackLo := false;
      }
      Schedule();
    }

    /** With no further posts, the queue drains in exactly as many interrupts as there are transfers left. */
    method Drain() returns (n: nat)
      requires Valid() && chunkSize > 0
      modifies this
      ensures Valid() && pendingHi.None? && pendingLo.None? && queueHi == [] && queueLo == []
      ensures forall i :: |old(log)| <= i < |log| && log[i].Dma? ==> log[i].chunk == chunkSize
      ensures chunkSize == old(chunkSize) && n == Left(old(S()), chunkSize) && old(log) <= log
      ensures forall id: nat :: id < |Orders(log)| ==> CalledBack(log, id)
    {
      hide Core, Orders, Outstanding, AllPieces, Pieces, Proper;
      n := 0;
      while pendingHi.Some? || pendingLo.Some?
        invariant Valid() && chunkSize == old(chunkSize) && old(log) <= log
        invariant forall i :: |old(log)| <= i < |log| && log[i].Dma? ==> log[i].chunk == chunkSize
        invariant n + Left(S(), chunkSize) == Left(old(S()), chunkSize)
        decreases Left(S(), chunkSize)
      {
        TransferDone([]);
        n := n + 1;
      }
      NoneLeft(S(), chunkSize);
      AllCalledBack(log, S());
    }
  }
}
