/**
 Indexing the logs of the rollup contracts (etherman/etherman_xlayer.go:505-662 and the event handlers), and the
 synchronizer's replay of the index (synchronizer/synchronizer.go:761-785).
 */
module L1Events {
  import opened Wrappers

  /** What the other handlers decode from a log and its block. */
  type Data(==, !new)

  /** What an event carries: a fork as it is stored, or anything else. */
  datatype Payload = ForkId(batchNumber: nat, forkId: nat, version: string) | Other(data: Data)

  datatype Kind =
    | GlobalExitRoots | SequenceBatches | ForcedBatches | TrustedVerifyBatch | VerifyBatch
    | SequenceForceBatches | ForkIDs | L1InfoTree | InitialSequenceBatches | UpdateEtrogSequence

  /** Which event to process next: its kind, and where it is in the block's list for that kind. */
  datatype Order = Order(name: Kind, pos: nat)

  datatype Header = Header(hash: nat, number: nat)

  /** The fields of a block that collect events. */
  datatype Field =
    | ForcedBatchesField | SequencedBatchesField | UpdateEtrogSequenceField | VerifiedBatchesField
    | SequencedForceBatchesField | ForkIDsField | GlobalExitRootsField | L1InfoTreeField

  /** Where the events of a kind go and are read from: two pairs of kinds share a field. */
  function Target(k: Kind): Field {
    match k
    case GlobalExitRoots => GlobalExitRootsField
    case SequenceBatches => SequencedBatchesField
    case ForcedBatches => ForcedBatchesField
    case TrustedVerifyBatch => VerifiedBatchesField
    case VerifyBatch => VerifiedBatchesField
    case SequenceForceBatches => SequencedForceBatchesField
    case ForkIDs => ForkIDsField
    case L1InfoTree => L1InfoTreeField
    case InitialSequenceBatches => SequencedBatchesField
    case UpdateEtrogSequence => UpdateEtrogSequenceField
  }

  /** A field not in `fields` is empty. */
  datatype Block = Block(header: Header, fields: map<Field, seq<Payload>>)

  datatype Event = Event(header: Header, kind: Kind, payload: Payload)

  /** What a handler makes of a log, given what L1 answers: nothing, an error, or an event to index. */
  datatype Effect = Ignored | DecodeError | Decoded(kind: Kind, payload: Payload, fetchOk: bool)
  datatype Log = Log(header: Header, effect: Effect)

  function EmptyBlock(h: Header): Block {
    Block(h, map[])
  }

  function Items(b: Block, k: Kind): seq<Payload> {
    if Target(k) in b.fields then b.fields[Target(k)] else []
  }

  /** All fields are lists that grow, except the one slot for UpdateEtrogSequence. */
  function Put(b: Block, k: Kind, p: Payload): Block {
    b.(fields := b.fields[Target(k) := if k.UpdateEtrogSequence? then [p] else Items(b, k) + [p]])
  }

  /** The handlers of these kinds read the whole L1 block for every log, the others only to open a block. */
  predicate AlwaysFetches(k: Kind) {
    k in {GlobalExitRoots, ForcedBatches, SequenceForceBatches, InitialSequenceBatches, UpdateEtrogSequence}
  }

  predicate OpensBlock(blocks: seq<Block>, h: Header) {
    |blocks| == 0 || blocks[|blocks| - 1].header != h
  }

  type Index = map<nat, seq<Order>>

  function OrdersOf(order: Index, hash: nat): seq<Order> {
    if hash in order then order[hash] else []
  }

  class EventReader {
    var blocks: seq<Block>
    var order: Index

    constructor ()
      ensures blocks == [] && order == map[]
    {
      blocks, order := [], map[];
    }

    /** One handler: append to the last block or open a new one, then note the order.  An error changes nothing. */
    method ProcessEvent(log: Log) returns (ok: bool)
      modifies this
      ensures ok <==> !Rejects(old(blocks), log)
      ensures !ok || log.effect.Ignored? ==> blocks == old(blocks) && order == old(order)
      ensures ok && log.effect.Decoded? ==>
        (blocks, order) == Indexed(old(blocks), old(order), Event(log.header, log.effect.kind, log.effect.payload))
    {
      if log.effect.DecodeError? {
        return false;
      }
      if log.effect.Ignored? {
        return true;
      }
      var k, p := log.effect.kind, log.effect.payload;
      if AlwaysFetches(k) && !log.effect.fetchOk {
        return false;
      }
      if OpensBlock(blocks, log.header) {
        if !log.effect.fetchOk {
          return false;
        }
        blocks := blocks + [Put(EmptyBlock(log.header), k, p)];
      } else {
        blocks := blocks[|blocks| - 1 := Put(blocks[|blocks| - 1], k, p)];
      }
      var last := blocks[|blocks| - 1];
      assert blocks == Indexed(old(blocks), old(order), Event(log.header, k, p)).0;
      var o := if k.UpdateEtrogSequence? then Order(k, 0) else Order(k, |Items(last, k)| - 1);
      order := order[last.header.hash := OrdersOf(order, last.header.hash) + [o]];
      return true;
    }

    /** readEvents: all logs in turn; the first error discards what was read. */
    method ReadEvents(logs: seq<Log>) returns (ok: bool)
      requires blocks == [] && order == map[]
      modifies this
      ensures ok <==> forall i :: 0 <= i < |logs| ==> !Fails(logs, i)
      ensures ok ==> (blocks, order) == IndexAll(Events(logs))
    {
      var i := 0;
      assert logs[..0] == [];
      while i < |logs|
        invariant 0 <= i <= |logs|
        invariant forall j :: 0 <= j < i ==> !Fails(logs, j)
        invariant (blocks, order) == IndexAll(Events(logs[..i]))
      {
        NextLog(logs, i, blocks, order);
        ok := ProcessEvent(logs[i]);
        if !ok {
          return;
        }
        i := i + 1;
      }
      assert logs[..i] == logs;
      ok := true;
    }
  }

  /** The events to index among the logs, in log order. */
  function Events(logs: seq<Log>): seq<Event> {
    if logs == [] then []
    else
      var log := logs[|logs| - 1];
      Events(logs[..|logs| - 1])
      + if log.effect.Decoded? then [Event(log.header, log.effect.kind, log.effect.payload)] else []
  }

  predicate Rejects(blocks: seq<Block>, log: Log) {
    || log.effect.DecodeError?
    || (log.effect.Decoded? && !log.effect.fetchOk && (AlwaysFetches(log.effect.kind) || OpensBlock(blocks, log.header)))
  }

  /** In a block that is open already, the five kinds that read the whole L1 block fail without it, and no others. */
  lemma NeedsBlockIff(blocks: seq<Block>, log: Log)
    requires log.effect.Decoded? && !log.effect.fetchOk && blocks != [] && blocks[|blocks| - 1].header == log.header
    ensures var k := log.effect.kind;
      Rejects(blocks, log)
      <==> k.GlobalExitRoots? || k.ForcedBatches? || k.SequenceForceBatches? || k.InitialSequenceBatches? || k.UpdateEtrogSequence?
  {
  }

  /** In terms of the logs alone: a new block is opened when the last event before this log is of another block. */
  predicate Fails(logs: seq<Log>, i: nat)
    requires i < |logs|
  {
    var before := Events(logs[..i]);
    || logs[i].effect.DecodeError?
    || (logs[i].effect.Decoded? && !logs[i].effect.fetchOk
        && (AlwaysFetches(logs[i].effect.kind) || before == [] || before[|before| - 1].header != logs[i].header))
  }

  function Indexed(blocks: seq<Block>, order: Index, e: Event): (seq<Block>, Index) {
    var opens := OpensBlock(blocks, e.header);
    var last := Put(if opens then EmptyBlock(e.header) else blocks[|blocks| - 1], e.kind, e.payload);
    ((if opens then blocks else blocks[..|blocks| - 1]) + [last],
     order[e.header.hash := OrdersOf(order, e.header.hash) + [Order(e.kind, |Items(last, e.kind)| - 1)]])
  }

  function IndexAll(es: seq<Event>): (seq<Block>, Index) {
    if es == [] then ([], map[])
    else
      var (blocks, order) := IndexAll(es[..|es| - 1]);
      Indexed(blocks, order, es[|es| - 1])
  }

  lemma {:induction false} IndexHeaders(es: seq<Event>)
    ensures var (blocks, _) := IndexAll(es);
      if es == [] then blocks == [] else blocks != [] && blocks[|blocks| - 1].header == es[|es| - 1].header
  {
  }

  lemma EventsNext(logs: seq<Log>, i: nat)
    requires i < |logs|
    ensures var log := logs[i];
      Events(logs[..i + 1]) == Events(logs[..i])
        + if log.effect.Decoded? then [Event(log.header, log.effect.kind, log.effect.payload)] else []
  {
    assert logs[..i + 1][..i] == logs[..i];
  }

  lemma IndexNext(es: seq<Event>, e: Event)
    ensures IndexAll(es + [e]) == Indexed(IndexAll(es).0, IndexAll(es).1, e)
  {
    assert (es + [e])[..|es|] == es;
  }

  lemma NextLog(logs: seq<Log>, i: nat, blocks: seq<Block>, order: Index)
    requires i < |logs| && (blocks, order) == IndexAll(Events(logs[..i]))
    ensures Rejects(blocks, logs[i]) <==> Fails(logs, i)
    ensures var log := logs[i];
      IndexAll(Events(logs[..i + 1])) == if log.effect.Decoded?
        then Indexed(blocks, order, Event(log.header, log.effect.kind, log.effect.payload)) else (blocks, order)
  {
    var es, log := Events(logs[..i]), logs[i];
    IndexHeaders(es);
    EventsNext(logs, i);
    if log.effect.Decoded? {
      IndexNext(es, Event(log.header, log.effect.kind, log.effect.payload));
    } else {
      assert es + [] == es;
    }
  }
}
