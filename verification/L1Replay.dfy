/**
 What the synchronizer reads back from the index (synchronizer/synchronizer.go:761-785): one entry per logged event,
 in log order, whatever the kinds and blocks they are spread over.
 */
module L1Replay {
  import opened Wrappers
  import opened L1Events

  /** An entry handed to a processor: the kind and what is found for it; None is an index out of range. */
  type Entry = (Kind, Option<Payload>)

  function Lookup(b: Block, o: Order): Option<Payload> {
    if o.pos < |Items(b, o.name)| then Some(Items(b, o.name)[o.pos]) else None
  }

  function ReplayBlock(b: Block, os: seq<Order>): seq<Entry> {
    seq(|os|, i requires 0 <= i < |os| => (os[i].name, Lookup(b, os[i])))
  }

  /** Block after block, each in its order. */
  function Replay(blocks: seq<Block>, order: Index): seq<Entry> {
    if blocks == [] then []
    else
      var last := blocks[|blocks| - 1];
      Replay(blocks[..|blocks| - 1], order) + ReplayBlock(last, OrdersOf(order, last.header.hash))
  }

  /** What was logged. */
  function Logged(es: seq<Event>): seq<Entry> {
    seq(|es|, i requires 0 <= i < |es| => (es[i].kind, Some(es[i].payload)))
  }

  // One block

  function BlockOf(h: Header, g: seq<Event>): (b: Block)
    ensures b.header == h
  {
    if g == [] then EmptyBlock(h) else Put(BlockOf(h, g[..|g| - 1]), g[|g| - 1].kind, g[|g| - 1].payload)
  }

  function OrdersIn(h: Header, g: seq<Event>): (os: seq<Order>)
    ensures |os| == |g|
  {
    if g == [] then []
    else
      var k := g[|g| - 1].kind;
      OrdersIn(h, g[..|g| - 1]) + [Order(k, |Items(BlockOf(h, g), k)| - 1)]
  }

  function LastEtrog(g: seq<Event>): Option<Payload> {
    if g == [] then None
    else if g[|g| - 1].kind.UpdateEtrogSequence? then Some(g[|g| - 1].payload)
    else LastEtrog(g[..|g| - 1])
  }

  /** What the processors of a block see: every event as logged, except that all UpdateEtrogSequence are the last one. */
  function Seen(g: seq<Event>): seq<Entry> {
    seq(|g|, i requires 0 <= i < |g| =>
      (g[i].kind, if g[i].kind.UpdateEtrogSequence? then LastEtrog(g) else Some(g[i].payload)))
  }

  lemma PutKeeps(b: Block, k: Kind, p: Payload, o: Order)
    requires Lookup(b, o).Some? && |Items(b, UpdateEtrogSequence)| <= 1
    ensures Lookup(Put(b, k, p), o) == if k.UpdateEtrogSequence? && o.name.UpdateEtrogSequence? then Some(p) else Lookup(b, o)
  {
  }

  lemma {:induction false} EtrogOfBlock(h: Header, g: seq<Event>)
    ensures Items(BlockOf(h, g), UpdateEtrogSequence) == if LastEtrog(g).Some? then [LastEtrog(g).value] else []
  {
    if g != [] {
      EtrogOfBlock(h, g[..|g| - 1]);
    }
  }

  lemma {:induction false} LookupIsSeen(h: Header, g: seq<Event>, i: nat)
    requires i < |g|
    ensures OrdersIn(h, g)[i].name == g[i].kind
    ensures Lookup(BlockOf(h, g), OrdersIn(h, g)[i]) == Seen(g)[i].1 && Seen(g)[i].1.Some?
    decreases |g|
  {
    EtrogOfBlock(h, g);
    if i < |g| - 1 {
      var g' := g[..|g| - 1];
      LookupIsSeen(h, g', i);
      EtrogOfBlock(h, g');
      PutKeeps(BlockOf(h, g'), g[|g| - 1].kind, g[|g| - 1].payload, OrdersIn(h, g')[i]);
    }
  }

  lemma BlockIsSeen(h: Header, g: seq<Event>)
    ensures ReplayBlock(BlockOf(h, g), OrdersIn(h, g)) == Seen(g)
  {
    forall i | 0 <= i < |g|
      ensures ReplayBlock(BlockOf(h, g), OrdersIn(h, g))[i] == Seen(g)[i]
    {
      LookupIsSeen(h, g, i);
    }
  }

  // All blocks

  /** Consecutive events of one block, the latest last. */
  datatype Groups = Empty | Snoc(init: Groups, header: Header, events: seq<Event>)

  function Ungrouped(gs: Groups): seq<Event> {
    if gs.Empty? then [] else Ungrouped(gs.init) + gs.events
  }

  function Grouped(gs: Groups, e: Event): (gs': Groups)
    ensures Ungrouped(gs') == Ungrouped(gs) + [e]
  {
    if gs.Snoc? && gs.header == e.header then gs.(events := gs.events + [e]) else Snoc(gs, e.header, [e])
  }

  /** Grouping keeps the events and their order. */
  function GroupsOf(es: seq<Event>): (gs: Groups)
    ensures Ungrouped(gs) == es
  {
    if es == [] then Empty
    else
      assert es == es[..|es| - 1] + [es[|es| - 1]];
      Grouped(GroupsOf(es[..|es| - 1]), es[|es| - 1])
  }

  /** As L1 nodes return them, the logs of a block are together. */
  ghost predicate Contiguous(es: seq<Event>) {
    forall i, j, k :: 0 <= i <= j <= k < |es| && es[i].header.hash == es[k].header.hash ==> es[j].header == es[i].header
  }

  predicate Absent(gs: Groups, hash: nat) {
    gs.Empty? || (gs.header.hash != hash && Absent(gs.init, hash))
  }

  /** The index holds one block per group, with that group's orders, and no block hash twice. */
  ghost predicate Holds(blocks: seq<Block>, order: Index, gs: Groups) {
    match gs
    case Empty => blocks == []
    case Snoc(init, h, g) =>
      && |blocks| > 0
      && blocks[|blocks| - 1] == BlockOf(h, g)
      && h.hash in order && order[h.hash] == OrdersIn(h, g)
      && Absent(init, h.hash)
      && Holds(blocks[..|blocks| - 1], order, init)
  }

  /** Orders of a block that is not indexed do not matter. */
  lemma {:induction false} OtherHashHolds(blocks: seq<Block>, order: Index, gs: Groups, hash: nat, os: seq<Order>)
    requires Holds(blocks, order, gs) && Absent(gs, hash)
    ensures Holds(blocks, order[hash := os], gs)
    decreases gs
  {
    if gs.Snoc? {
      OtherHashHolds(blocks[..|blocks| - 1], order, gs.init, hash, os);
    }
  }

  lemma {:induction false} AbsentFromOrder(blocks: seq<Block>, order: Index, gs: Groups, hash: nat)
    requires Holds(blocks, order, gs) && hash !in order
    ensures Absent(gs, hash)
    decreases gs
  {
    if gs.Snoc? {
      AbsentFromOrder(blocks[..|blocks| - 1], order, gs.init, hash);
    }
  }

  lemma LastHolds(blocks: seq<Block>, order: Index, gs: Groups, h: Header, g: seq<Event>)
    requires Holds(blocks, order, gs) && Absent(gs, h.hash) && h.hash in order && order[h.hash] == OrdersIn(h, g)
    ensures Holds(blocks + [BlockOf(h, g)], order, Snoc(gs, h, g))
  {
    assert (blocks + [BlockOf(h, g)])[..|blocks|] == blocks;
  }

  lemma AppendToGroup(h: Header, g: seq<Event>, e: Event)
    ensures BlockOf(h, g + [e]) == Put(BlockOf(h, g), e.kind, e.payload)
    ensures OrdersIn(h, g + [e]) == OrdersIn(h, g) + [Order(e.kind, |Items(BlockOf(h, g + [e]), e.kind)| - 1)]
  {
    assert (g + [e])[..|g|] == g;
  }

  lemma OpenHolds(blocks: seq<Block>, order: Index, gs: Groups, e: Event)
    requires Holds(blocks, order, gs) && e.header.hash !in order && OpensBlock(blocks, e.header)
    ensures Holds(Indexed(blocks, order, e).0, Indexed(blocks, order, e).1, Snoc(gs, e.header, [e]))
  {
    var h, os := e.header, OrdersIn(e.header, [e]);
    assert [] + [e] == [e];
    AppendToGroup(h, [], e);
    AbsentFromOrder(blocks, order, gs, h.hash);
    OtherHashHolds(blocks, order, gs, h.hash, os);
    LastHolds(blocks, order[h.hash := os], gs, h, [e]);
  }

  lemma AppendHolds(blocks: seq<Block>, order: Index, gs: Groups, e: Event)
    requires Holds(blocks, order, gs) && gs.Snoc? && gs.header == e.header
    ensures Holds(Indexed(blocks, order, e).0, Indexed(blocks, order, e).1, gs.(events := gs.events + [e]))
  {
    var h, g := gs.header, gs.events + [e];
    var init, os := blocks[..|blocks| - 1], OrdersIn(h, g);
    AppendToGroup(h, gs.events, e);
    assert Indexed(blocks, order, e) == (init + [BlockOf(h, g)], order[h.hash := os]);
    OtherHashHolds(init, order, gs.init, h.hash, os);
    LastHolds(init, order[h.hash := os], gs.init, h, g);
  }

  lemma {:induction false} OrderIsLogged(es: seq<Event>, hash: nat)
    requires hash in IndexAll(es).1
    ensures exists k :: 0 <= k < |es| && es[k].header.hash == hash
  {
    var n := |es| - 1;
    if es[n].header.hash != hash {
      OrderIsLogged(es[..n], hash);
      var k :| 0 <= k < n && es[..n][k].header.hash == hash;
      assert es[k].header.hash == hash;
    }
  }

  lemma NewBlockIsNew(es: seq<Event>, n: nat)
    requires Contiguous(es) && n < |es| && (n > 0 ==> es[n - 1].header != es[n].header)
    ensures es[n].header.hash !in IndexAll(es[..n]).1
  {
    if es[n].header.hash in IndexAll(es[..n]).1 {
      OrderIsLogged(es[..n], es[n].header.hash);
    }
  }

  lemma NextHolds(blocks: seq<Block>, order: Index, gs: Groups, e: Event)
    requires Holds(blocks, order, gs) && (OpensBlock(blocks, e.header) ==> e.header.hash !in order)
    ensures Holds(Indexed(blocks, order, e).0, Indexed(blocks, order, e).1, Grouped(gs, e))
  {
    if OpensBlock(blocks, e.header) {
      OpenHolds(blocks, order, gs, e);
    } else {
      AppendHolds(blocks, order, gs, e);
    }
  }

  lemma ContiguousPrefix(es: seq<Event>, n: nat)
    requires Contiguous(es) && n <= |es|
    ensures Contiguous(es[..n])
  {
  }

  lemma {:induction false} IndexHolds(es: seq<Event>)
    requires Contiguous(es)
    ensures Holds(IndexAll(es).0, IndexAll(es).1, GroupsOf(es))
  {
    if es != [] {
      var n := |es| - 1;
      var (blocks, order) := IndexAll(es[..n]);
      ContiguousPrefix(es, n);
      IndexHolds(es[..n]);
      assert OpensBlock(blocks, es[n].header) ==> es[n].header.hash !in order by {
        IndexHeaders(es[..n]);
        if n == 0 || es[n - 1].header != es[n].header {
          NewBlockIsNew(es, n);
        }
      }
      NextHolds(blocks, order, GroupsOf(es[..n]), es[n]);
    }
  }

  function SeenAll(gs: Groups): seq<Entry> {
    if gs.Empty? then [] else SeenAll(gs.init) + Seen(gs.events)
  }

  lemma {:induction false} HeldIsSeen(blocks: seq<Block>, order: Index, gs: Groups)
    requires Holds(blocks, order, gs)
    ensures Replay(blocks, order) == SeenAll(gs)
    decreases gs
  {
    if gs.Snoc? {
      BlockIsSeen(gs.header, gs.events);
      HeldIsSeen(blocks[..|blocks| - 1], order, gs.init);
    }
  }

  /** For every run of logs the replay is the log, block by block, up to the one slot that is not a list. */
  lemma ReplayIsSeen(es: seq<Event>)
    requires Contiguous(es)
    ensures Replay(IndexAll(es).0, IndexAll(es).1) == SeenAll(GroupsOf(es))
  {
    IndexHolds(es);
    HeldIsSeen(IndexAll(es).0, IndexAll(es).1, GroupsOf(es));
  }

  // When the replay is the log

  /** No two different UpdateEtrogSequence among these events. */
  ghost predicate Unambiguous(g: seq<Event>) {
    forall i, j :: 0 <= i < |g| && 0 <= j < |g| && g[i].kind.UpdateEtrogSequence? && g[j].kind.UpdateEtrogSequence?
      ==> g[i].payload == g[j].payload
  }

  ghost predicate AllUnambiguous(gs: Groups) {
    gs.Empty? || (AllUnambiguous(gs.init) && Unambiguous(gs.events))
  }

  lemma {:induction false} LastEtrogIsLogged(g: seq<Event>)
    requires LastEtrog(g).Some?
    ensures exists j :: 0 <= j < |g| && g[j].kind.UpdateEtrogSequence? && LastEtrog(g) == Some(g[j].payload)
  {
    var n := |g| - 1;
    if !g[n].kind.UpdateEtrogSequence? {
      LastEtrogIsLogged(g[..n]);
      var j :| 0 <= j < n && g[..n][j].kind.UpdateEtrogSequence? && LastEtrog(g[..n]) == Some(g[..n][j].payload);
      assert g[j] == g[..n][j];
    }
  }

  lemma SeenIsLoggedIff(g: seq<Event>)
    ensures Seen(g) == Logged(g) <==> Unambiguous(g)
  {
    if Seen(g) == Logged(g) {
      assert forall i :: 0 <= i < |g| && g[i].kind.UpdateEtrogSequence? ==>
        LastEtrog(g) == Seen(g)[i].1 == Logged(g)[i].1 == Some(g[i].payload);
    } else {
      var i :| 0 <= i < |g| && Seen(g)[i] != Logged(g)[i];
      LookupIsSeen(g[i].header, g, i);
      LastEtrogIsLogged(g);
    }
  }

  lemma LoggedConcat(a: seq<Event>, b: seq<Event>)
    ensures Logged(a + b) == Logged(a) + Logged(b)
  {
  }

  lemma ConcatInjective<T>(a: seq<T>, b: seq<T>, c: seq<T>, d: seq<T>)
    requires |a| == |c|
    ensures a + b == c + d <==> a == c && b == d
  {
    if a + b == c + d {
      assert a == (a + b)[..|a|] && b == (a + b)[|a|..];
    }
  }

  lemma {:induction false} SeenAllIsLoggedIff(gs: Groups)
    ensures |SeenAll(gs)| == |Ungrouped(gs)|
    ensures SeenAll(gs) == Logged(Ungrouped(gs)) <==> AllUnambiguous(gs)
  {
    if gs.Snoc? {
      SeenAllIsLoggedIff(gs.init);
      SeenIsLoggedIff(gs.events);
      LoggedConcat(Ungrouped(gs.init), gs.events);
      ConcatInjective(SeenAll(gs.init), Seen(gs.events), Logged(Ungrouped(gs.init)), Logged(gs.events));
    }
  }

  /** The replay is the log, in order and in full, exactly when no block has two different UpdateEtrogSequence. */
  lemma ReplayIsTheLogIff(es: seq<Event>)
    requires Contiguous(es)
    ensures Replay(IndexAll(es).0, IndexAll(es).1) == Logged(es) <==> AllUnambiguous(GroupsOf(es))
  {
    ReplayIsSeen(es);
    SeenAllIsLoggedIff(GroupsOf(es));
  }

  lemma {:induction false} GroupOfTwo(es: seq<Event>)
    requires |es| == 2 && es[0].header == es[1].header
    ensures GroupsOf(es) == Snoc(Empty, es[0].header, es)
  {
    assert es[..1][..0] == [] && es[..1] == [es[0]];
    assert GroupsOf(es[..1]) == Grouped(Empty, es[0]);
    assert [es[0]] + [es[1]] == es;
  }

  /** Two in one block: the first one's data is lost. */
  lemma {:induction false} TwoEtrogSequencesInABlock(es: seq<Event>)
    requires |es| == 2 && es[0].header == es[1].header && es[0].kind == es[1].kind == UpdateEtrogSequence
    requires es[0].payload != es[1].payload
    ensures Contiguous(es) && Replay(IndexAll(es).0, IndexAll(es).1) != Logged(es)
  {
    TwoAreAmbiguous(es);
    ReplayIsTheLogIff(es);
  }

  lemma {:induction false} TwoAreAmbiguous(es: seq<Event>)
    requires |es| == 2 && es[0].header == es[1].header && es[0].kind == es[1].kind == UpdateEtrogSequence
    requires es[0].payload != es[1].payload
    ensures !AllUnambiguous(GroupsOf(es))
  {
    GroupOfTwo(es);
    assert !Unambiguous(es);
  }
}
