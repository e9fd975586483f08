/** The operation-log channel: any number of producers, a bounded queue that drops its oldest entry when
    full, and one consumer that stores entries in batches.

    Every channel operation and every database insert is one atomic step; the goroutines interleave
    freely between steps. */
module OperationLog {
  type ProducerId = nat

  /** The source's limits: entries in the channel (the results hold for every capacity), rows in one insert, rows
      in one clean-up delete. */
  const BUFFER_SIZE := 1024
  const FLUSH_SIZE := 100
  const CLEAN_BATCH_SIZE := 1000
  /** 180 days, in seconds. */
  const RETENTION := 180 * 24 * 3600

  /** One Record call's payload. The ticket numbers the calls in the order in which they began. */
  datatype Entry = Entry(producer: ProducerId, ticket: nat, body: string)

  /** A Record call that met a full channel: about to drop the oldest entry, then about to try again. */
  datatype Pending = MustEvict(entry: Entry) | MustRetry(entry: Entry)

  /** Where the consumer stands. It holds a received entry while it looks up the operator's name. */
  datatype Consumer = Waiting | Building(entry: Entry) | Flushing | LastFlush | Stopped

  datatype Departure = Departure(entry: Entry, evicted: bool)
  datatype Flush = Flush(rows: seq<Entry>, ok: bool)

  datatype State = State(
    capacity: nat, queue: seq<Entry>, closed: bool,
    pending: map<ProducerId, Pending>, consumer: Consumer, batch: seq<Entry>,
    flushes: seq<Flush>, abandoned: seq<Entry>, panicked: seq<Entry>,
    recorded: seq<Entry>, entered: seq<Entry>, departed: seq<Departure>)

  datatype Step =
    | Send(producer: ProducerId, body: string)
    | Evict(producer: ProducerId)
    | Retry(producer: ProducerId)
    | Receive
    | Append
    | TickFires
    | Insert(ok: bool)
    | Close

  function Init(capacity: nat): State {
    State(capacity, [], false, map[], Waiting, [], [], [], [], [], [], [])
  }

  // ---------------------------------------------------------------- the steps

  function Enqueue(s: State, e: Entry): State {
    s.(queue := s.queue + [e], entered := s.entered + [e])
  }

  function Dequeue(s: State, evicted: bool): State
    requires s.queue != []
  {
    s.(queue := s.queue[1..], departed := s.departed + [Departure(s.queue[0], evicted)])
  }

  function AfterAppend(batch: seq<Entry>): Consumer {
    if |batch| >= FLUSH_SIZE then Flushing else Waiting
  }

  /** A non-blocking send: the channel takes it, or it is full, or it is closed and the call panics. */
  function TrySend(s: State, e: Entry, full: State): State {
    if s.closed then s.(panicked := s.panicked + [e])
    else if |s.queue| < s.capacity then Enqueue(s, e)
    else full
  }

  /** One step; a step that is not enabled changes nothing. */
  function Advance(s: State, step: Step): State {
    match step
    case Send(p, body) =>
      if p in s.pending then s
      else
        var e := Entry(p, |s.recorded|, body);
        var begun := s.(recorded := s.recorded + [e]);
        TrySend(begun, e, begun.(pending := s.pending[p := MustEvict(e)]))
    case Evict(p) =>
      if p !in s.pending || !s.pending[p].MustEvict? then s
      else
        var next := s.(pending := s.pending[p := MustRetry(s.pending[p].entry)]);
        if s.queue == [] then next else Dequeue(next, true)
    case Retry(p) =>
      if p !in s.pending || !s.pending[p].MustRetry? then s
      else
        var e := s.pending[p].entry;
        var done := s.(pending := s.pending - {p});
        TrySend(done, e, done.(abandoned := s.abandoned + [e]))
    case Receive =>
      if s.consumer != Waiting then s
      else if s.queue != [] then Dequeue(s.(consumer := Building(s.queue[0])), false)
      else if s.closed then s.(consumer := LastFlush)
      else s
    case Append =>
      if !s.consumer.Building? then s
      else
        var batch := s.batch + [s.consumer.entry];
        s.(batch := batch, consumer := AfterAppend(batch))
    case TickFires => if s.consumer != Waiting then s else s.(consumer := Flushing)
    case Insert(ok) =>
      if s.consumer != Flushing && s.consumer != LastFlush then s
      else
        s.(consumer := if s.consumer == LastFlush then Stopped else Waiting, batch := [],
           flushes := if s.batch == [] then s.flushes else s.flushes + [Flush(s.batch, ok)])
    case Close => s.(closed := true)
  }

  function Run(s: State, steps: seq<Step>): State
    decreases |steps|
  {
    if steps == [] then s else Run(Advance(s, steps[0]), steps[1..])
  }

  // ---------------------------------------------------------------- reading the histories

  function Entries(ds: seq<Departure>): seq<Entry> {
    if ds == [] then [] else Entries(ds[..|ds| - 1]) + [ds[|ds| - 1].entry]
  }

  /** The entries that left the channel one way: dropped by a producer, or received by the consumer. */
  function Leaving(ds: seq<Departure>, evicted: bool): seq<Entry> {
    if ds == [] then []
    else
      var d := ds[|ds| - 1];
      Leaving(ds[..|ds| - 1], evicted) + if d.evicted == evicted then [d.entry] else []
  }

  /** All rows handed to the database, in order. */
  function Flushed(fs: seq<Flush>): seq<Entry> {
    if fs == [] then [] else Flushed(fs[..|fs| - 1]) + fs[|fs| - 1].rows
  }

  /** The rows of the successful inserts, or of the failed ones. */
  function RowsOf(fs: seq<Flush>, ok: bool): seq<Entry> {
    if fs == [] then []
    else
      var f := fs[|fs| - 1];
      RowsOf(fs[..|fs| - 1], ok) + if f.ok == ok then f.rows else []
  }

  function Evicted(s: State): seq<Entry> {
    Leaving(s.departed, true)
  }

  function Stored(s: State): seq<Entry> {
    RowsOf(s.flushes, true)
  }

  function FailedInserts(s: State): seq<Entry> {
    RowsOf(s.flushes, false)
  }

  function InHand(c: Consumer): seq<Entry> {
    if c.Building? then [c.entry] else []
  }

  predicate InFlight(s: State, e: Entry) {
    e.producer in s.pending && s.pending[e.producer].entry == e
  }

  lemma DepartedSnoc(ds: seq<Departure>, d: Departure)
    ensures Entries(ds + [d]) == Entries(ds) + [d.entry]
    ensures Leaving(ds + [d], d.evicted) == Leaving(ds, d.evicted) + [d.entry]
    ensures Leaving(ds + [d], !d.evicted) == Leaving(ds, !d.evicted)
  {
    assert (ds + [d])[..|ds|] == ds;
  }

  lemma FlushedSnoc(fs: seq<Flush>, f: Flush)
    ensures Flushed(fs + [f]) == Flushed(fs) + f.rows
  {
    assert (fs + [f])[..|fs|] == fs;
  }

  // ---------------------------------------------------------------- the invariant

  /** The channel is first in, first out, whoever removes from it. */
  ghost predicate Fifo(s: State) {
    Entries(s.departed) + s.queue == s.entered
  }

  /** What the consumer received, it flushed, batched or holds, in that order. */
  ghost predicate ConsumerKeepsOrder(s: State) {
    Leaving(s.departed, false) == Flushed(s.flushes) + s.batch + InHand(s.consumer)
  }

  /** How often an entry sits at the producers' side of the channel. */
  function Times(s: State, e: Entry): nat {
    multiset(s.entered)[e] + multiset(s.abandoned)[e] + multiset(s.panicked)[e] + if InFlight(s, e) then 1 else 0
  }

  ghost predicate TicketsCount(s: State) {
    forall i :: 0 <= i < |s.recorded| ==> s.recorded[i].ticket == i
  }

  ghost predicate OncePerRecord(s: State) {
    && (forall e :: Times(s, e) == if e in s.recorded then 1 else 0)
    && (forall p :: p in s.pending ==> s.pending[p].entry.producer == p)
  }

  /** Each producer's entries enter the channel in the order of its calls. */
  ghost predicate ProducersInOrder(es: seq<Entry>) {
    forall i, j :: 0 <= i < j < |es| && es[i].producer == es[j].producer ==> es[i].ticket < es[j].ticket
  }

  ghost predicate PendingIsNewest(s: State) {
    && ProducersInOrder(s.entered)
    && (forall i :: 0 <= i < |s.entered| ==> s.entered[i].ticket < |s.recorded|)
    && (forall p, i :: p in s.pending && 0 <= i < |s.entered| && s.entered[i].producer == p ==>
          s.entered[i].ticket < s.pending[p].entry.ticket)
    && (forall p :: p in s.pending ==> s.pending[p].entry.ticket < |s.recorded|)
  }

  ghost predicate Bounded(s: State) {
    && |s.queue| <= s.capacity
    && |s.batch| <= FLUSH_SIZE
    && (s.consumer == Waiting || s.consumer.Building? ==> |s.batch| < FLUSH_SIZE)
    && (forall i :: 0 <= i < |s.flushes| ==> 0 < |s.flushes[i].rows| <= FLUSH_SIZE)
    && (s.consumer == LastFlush || s.consumer == Stopped ==> s.closed && s.queue == [])
    && (s.consumer == Stopped ==> s.batch == [])
  }

  ghost predicate Sound(s: State) {
    Fifo(s) && ConsumerKeepsOrder(s) && TicketsCount(s) && OncePerRecord(s) && PendingIsNewest(s) && Bounded(s)
  }

  lemma DequeueKeepsOrder(s: State, evicted: bool)
    requires s.queue != [] && Fifo(s)
    ensures Fifo(Dequeue(s, evicted))
    ensures Leaving(Dequeue(s, evicted).departed, evicted) == Leaving(s.departed, evicted) + [s.queue[0]]
    ensures Leaving(Dequeue(s, evicted).departed, !evicted) == Leaving(s.departed, !evicted)
  {
    DepartedSnoc(s.departed, Departure(s.queue[0], evicted));
    assert [s.queue[0]] + s.queue[1..] == s.queue;
  }

  lemma EnqueueKeepsFifo(s: State, e: Entry)
    requires Fifo(s)
    ensures Fifo(Enqueue(s, e))
  {
    assert Entries(s.departed) + (s.queue + [e]) == (Entries(s.departed) + s.queue) + [e];
  }

  /** A step that moves neither the channel's contents nor the consumer. */
  lemma SameChannelKeepsOrder(s: State, after: State)
    requires Fifo(s) && ConsumerKeepsOrder(s)
    requires after == s.(pending := after.pending, abandoned := after.abandoned, panicked := after.panicked, recorded := after.recorded)
    ensures Fifo(after) && ConsumerKeepsOrder(after)
  {
  }

  lemma EnqueueKeepsOrder(s: State, e: Entry)
    requires Fifo(s) && ConsumerKeepsOrder(s)
    ensures Fifo(Enqueue(s, e)) && ConsumerKeepsOrder(Enqueue(s, e))
  {
    EnqueueKeepsFifo(s, e);
  }

  lemma TrySendKeepsOrder(s: State, e: Entry, full: State)
    requires Fifo(s) && ConsumerKeepsOrder(s)
    requires full == s.(pending := full.pending, abandoned := full.abandoned)
    ensures Fifo(TrySend(s, e, full)) && ConsumerKeepsOrder(TrySend(s, e, full))
  {
    if !s.closed && |s.queue| < s.capacity {
      EnqueueKeepsOrder(s, e);
    } else {
      SameChannelKeepsOrder(s, TrySend(s, e, full));
    }
  }

  lemma EvictKeepsOrder(s: State, p: ProducerId)
    requires Fifo(s) && ConsumerKeepsOrder(s) && p in s.pending && s.pending[p].MustEvict?
    ensures Fifo(Advance(s, Evict(p))) && ConsumerKeepsOrder(Advance(s, Evict(p)))
  {
    var next := s.(pending := s.pending[p := MustRetry(s.pending[p].entry)]);
    SameChannelKeepsOrder(s, next);
    if s.queue != [] { DequeueKeepsOrder(next, true); }
  }

  lemma ProducerStepKeepsOrder(s: State, step: Step)
    requires Fifo(s) && ConsumerKeepsOrder(s)
    requires step.Send? || step.Evict? || step.Retry?
    ensures Fifo(Advance(s, step)) && ConsumerKeepsOrder(Advance(s, step))
  {
    match step
    case Send(p, body) =>
      if p !in s.pending {
        var e := Entry(p, |s.recorded|, body);
        var begun := s.(recorded := s.recorded + [e]);
        SameChannelKeepsOrder(s, begun);
        TrySendKeepsOrder(begun, e, begun.(pending := s.pending[p := MustEvict(e)]));
      }
    case Evict(p) => if p in s.pending && s.pending[p].MustEvict? { EvictKeepsOrder(s, p); }
    case Retry(p) =>
      if p in s.pending && s.pending[p].MustRetry? {
        var done := s.(pending := s.pending - {p});
        SameChannelKeepsOrder(s, done);
        TrySendKeepsOrder(done, s.pending[p].entry, done.(abandoned := s.abandoned + [s.pending[p].entry]));
      }
  }

  lemma ReceiveKeepsOrder(s: State)
    requires Fifo(s) && ConsumerKeepsOrder(s)
    ensures Fifo(Advance(s, Receive)) && ConsumerKeepsOrder(Advance(s, Receive))
  {
    if s.consumer == Waiting && s.queue != [] { DequeueKeepsOrder(s, false); }
  }

  lemma InsertKeepsOrder(s: State, ok: bool)
    requires Fifo(s) && ConsumerKeepsOrder(s)
    ensures Fifo(Advance(s, Insert(ok))) && ConsumerKeepsOrder(Advance(s, Insert(ok)))
  {
    FlushedSnoc(s.flushes, Flush(s.batch, ok));
  }

  lemma StepKeepsOrder(s: State, step: Step)
    requires Fifo(s) && ConsumerKeepsOrder(s)
    ensures Fifo(Advance(s, step)) && ConsumerKeepsOrder(Advance(s, step))
  {
    if step.Send? || step.Evict? || step.Retry? {
      ProducerStepKeepsOrder(s, step);
    } else if step.Receive? {
      ReceiveKeepsOrder(s);
    } else if step.Insert? {
      InsertKeepsOrder(s, step.ok);
    }
  }

  lemma StepKeepsBounds(s: State, step: Step)
    requires Bounded(s)
    ensures Bounded(Advance(s, step))
  {
  }

  lemma StepKeepsTickets(s: State, step: Step)
    requires TicketsCount(s)
    ensures TicketsCount(Advance(s, step))
    ensures s.recorded <= Advance(s, step).recorded
  {
  }

  lemma SnocCounts(es: seq<Entry>, x: Entry, e: Entry)
    ensures multiset(es + [x])[e] == multiset(es)[e] + if x == e then 1 else 0
    ensures e in es + [x] <==> e in es || x == e
  {
  }

  /** The entry a Send begins with is new. */
  lemma SentIsNew(s: State, p: ProducerId, body: string)
    requires TicketsCount(s)
    ensures Entry(p, |s.recorded|, body) !in s.recorded
  {
  }

  lemma SendKeepsOnce(s: State, step: Step, e: Entry)
    requires step.Send? && TicketsCount(s) && OncePerRecord(s)
    ensures Times(Advance(s, step), e) == if e in Advance(s, step).recorded then 1 else 0
  {
    var sent := Entry(step.producer, |s.recorded|, step.body);
    assert Times(s, e) == if e in s.recorded then 1 else 0;
    SentIsNew(s, step.producer, step.body);
    SnocCounts(s.entered, sent, e);
    SnocCounts(s.panicked, sent, e);
    SnocCounts(s.recorded, sent, e);
  }

  lemma RetryKeepsOnce(s: State, step: Step, e: Entry)
    requires step.Retry? && OncePerRecord(s)
    ensures Times(Advance(s, step), e) == Times(s, e)
  {
  }

  lemma OtherStepKeepsOnce(s: State, step: Step, e: Entry)
    requires !step.Send? && !step.Retry?
    ensures Times(Advance(s, step), e) == Times(s, e)
  {
  }

  lemma StepKeepsOwner(s: State, step: Step)
    requires forall p :: p in s.pending ==> s.pending[p].entry.producer == p
    ensures forall p :: p in Advance(s, step).pending ==> Advance(s, step).pending[p].entry.producer == p
    ensures !step.Send? ==> Advance(s, step).recorded == s.recorded
  {
  }

  lemma StepKeepsOnce(s: State, step: Step)
    requires TicketsCount(s) && OncePerRecord(s)
    ensures OncePerRecord(Advance(s, step))
  {
    var after := Advance(s, step);
    StepKeepsOwner(s, step);
    forall e ensures Times(after, e) == if e in after.recorded then 1 else 0 {
      if step.Send? {
        SendKeepsOnce(s, step, e);
      } else if step.Retry? {
        RetryKeepsOnce(s, step, e);
      } else {
        OtherStepKeepsOnce(s, step, e);
      }
    }
  }

  lemma StepKeepsNewest(s: State, step: Step)
    requires PendingIsNewest(s) && OncePerRecord(s)
    ensures PendingIsNewest(Advance(s, step))
  {
  }

  lemma StepKeepsSound(s: State, step: Step)
    requires Sound(s)
    ensures Sound(Advance(s, step))
  {
    StepKeepsOrder(s, step);
    StepKeepsBounds(s, step);
    StepKeepsTickets(s, step);
    StepKeepsOnce(s, step);
    StepKeepsNewest(s, step);
  }

  lemma {:induction false} EveryRunIsSound(s: State, steps: seq<Step>)
    requires Sound(s)
    ensures Sound(Run(s, steps))
    decreases |steps|
  {
    if steps != [] {
      StepKeepsSound(s, steps[0]);
      EveryRunIsSound(Advance(s, steps[0]), steps[1..]);
    }
  }

  lemma InitIsSound(capacity: nat)
    ensures Sound(Init(capacity))
  {
  }

  // ---------------------------------------------------------------- where every entry is

  /** How often an entry left is how often it was evicted plus how often it was received. */
  lemma {:induction false} DeparturesSplit(ds: seq<Departure>, e: Entry)
    ensures multiset(Entries(ds))[e] == multiset(Leaving(ds, true))[e] + multiset(Leaving(ds, false))[e]
  {
    if ds != [] { DeparturesSplit(ds[..|ds| - 1], e); }
  }

  lemma {:induction false} FlushesSplit(fs: seq<Flush>, e: Entry)
    ensures multiset(Flushed(fs))[e] == multiset(RowsOf(fs, true))[e] + multiset(RowsOf(fs, false))[e]
  {
    if fs != [] { FlushesSplit(fs[..|fs| - 1], e); }
  }

  function Places(s: State, e: Entry): nat {
    multiset(Stored(s))[e] + multiset(FailedInserts(s))[e] + multiset(Evicted(s))[e]
    + multiset(s.abandoned)[e] + multiset(s.panicked)[e]
    + multiset(s.queue)[e] + multiset(s.batch)[e] + multiset(InHand(s.consumer))[e]
    + if InFlight(s, e) then 1 else 0
  }

  /** Conservation: a recorded entry is stored, in a failed insert, evicted, abandoned, lost to a closed
      channel, queued, batched, in the consumer's hand or still in its Record call: exactly one of these. */
  lemma EveryEntryInOnePlace(capacity: nat, steps: seq<Step>, e: Entry)
    ensures var s := Run(Init(capacity), steps); Places(s, e) == if e in s.recorded then 1 else 0
  {
    InitIsSound(capacity);
    EveryRunIsSound(Init(capacity), steps);
    SoundHasOnePlace(Run(Init(capacity), steps), e);
  }

  lemma SoundHasOnePlace(s: State, e: Entry)
    requires Sound(s)
    ensures Places(s, e) == if e in s.recorded then 1 else 0
  {
    assert Times(s, e) == if e in s.recorded then 1 else 0;
    DeparturesSplit(s.departed, e);
    assert multiset(s.entered) == multiset(Entries(s.departed)) + multiset(s.queue);
    FlushesSplit(s.flushes, e);
    assert multiset(Flushed(s.flushes) + s.batch + InHand(s.consumer))
        == multiset(Flushed(s.flushes)) + multiset(s.batch) + multiset(InHand(s.consumer));
  }

  // ---------------------------------------------------------------- order

  /** `a` is what remains of `b` when some elements are struck out. */
  predicate Subsequence(a: seq<Entry>, b: seq<Entry>)
    decreases |b|
  {
    || a == []
    || (b != [] && Subsequence(a, b[..|b| - 1]))
    || (b != [] && a[|a| - 1] == b[|b| - 1] && Subsequence(a[..|a| - 1], b[..|b| - 1]))
  }

  lemma {:induction false} SubsequenceGrows(a: seq<Entry>, b: seq<Entry>, tail: seq<Entry>)
    requires Subsequence(a, b)
    ensures Subsequence(a, b + tail) && Subsequence(a + tail, b + tail)
    decreases |tail|
  {
    if tail == [] {
      assert a + tail == a && b + tail == b;
    } else {
      var init := tail[..|tail| - 1];
      SubsequenceGrows(a, b, init);
      assert (b + tail)[..|b + tail| - 1] == b + init;
      assert (a + tail)[..|a + tail| - 1] == a + init;
    }
  }

  lemma {:induction false} SubsequenceTransitive(a: seq<Entry>, b: seq<Entry>, c: seq<Entry>)
    requires Subsequence(a, b) && Subsequence(b, c)
    ensures Subsequence(a, c)
    decreases |c|
  {
    if a != [] && b != [] {
      var c' := c[..|c| - 1];
      if Subsequence(b, c') {
        SubsequenceTransitive(a, b, c');
      } else {
        var b' := b[..|b| - 1];
        if Subsequence(a, b') {
          SubsequenceTransitive(a, b', c');
        } else {
          SubsequenceTransitive(a[..|a| - 1], b', c');
        }
      }
    }
  }

  lemma {:induction false} ReceivedIsSubsequence(ds: seq<Departure>, evicted: bool)
    ensures Subsequence(Leaving(ds, evicted), Entries(ds))
  {
    if ds != [] {
      var d := ds[|ds| - 1];
      ReceivedIsSubsequence(ds[..|ds| - 1], evicted);
      SubsequenceGrows(Leaving(ds[..|ds| - 1], evicted), Entries(ds[..|ds| - 1]), [d.entry]);
      assert d.evicted != evicted ==> Leaving(ds, evicted) == Leaving(ds[..|ds| - 1], evicted);
    }
  }

  lemma {:induction false} RowsAreSubsequence(fs: seq<Flush>, ok: bool)
    ensures Subsequence(RowsOf(fs, ok), Flushed(fs))
  {
    if fs != [] {
      var f := fs[|fs| - 1];
      RowsAreSubsequence(fs[..|fs| - 1], ok);
      SubsequenceGrows(RowsOf(fs[..|fs| - 1], ok), Flushed(fs[..|fs| - 1]), f.rows);
      assert f.ok != ok ==> RowsOf(fs, ok) == RowsOf(fs[..|fs| - 1], ok);
    }
  }

  /** Stored rows keep the order in which their entries entered the channel. */
  lemma StoredKeepsEntryOrder(s: State)
    requires Sound(s)
    ensures Subsequence(Stored(s), s.entered)
  {
    RowsAreSubsequence(s.flushes, true);
    assert Subsequence([], []);
    SubsequenceGrows(Stored(s), Flushed(s.flushes), s.batch + InHand(s.consumer));
    assert Flushed(s.flushes) + (s.batch + InHand(s.consumer)) == Leaving(s.departed, false);
    ReceivedIsSubsequence(s.departed, false);
    SubsequenceTransitive(Stored(s), Leaving(s.departed, false), Entries(s.departed));
    SubsequenceGrows(Stored(s), Entries(s.departed), s.queue);
  }

  lemma {:induction false} SubsequenceMember(a: seq<Entry>, b: seq<Entry>, e: Entry)
    requires Subsequence(a, b) && e in a
    ensures e in b
    decreases |b|
  {
    var b' := b[..|b| - 1];
    if Subsequence(a, b') {
      SubsequenceMember(a, b', e);
    } else if e != a[|a| - 1] {
      SubsequenceMember(a[..|a| - 1], b', e);
    }
  }

  lemma {:induction false} SubsequenceInOrder(a: seq<Entry>, b: seq<Entry>)
    requires Subsequence(a, b) && ProducersInOrder(b)
    ensures ProducersInOrder(a)
    decreases |b|
  {
    if a != [] {
      var b' := b[..|b| - 1];
      if Subsequence(a, b') {
        SubsequenceInOrder(a, b');
      } else {
        var a' := a[..|a| - 1];
        SubsequenceInOrder(a', b');
        forall i | 0 <= i < |a'| && a'[i].producer == a[|a| - 1].producer ensures a'[i].ticket < a[|a| - 1].ticket {
          SubsequenceMember(a', b', a'[i]);
          var j :| 0 <= j < |b'| && b'[j] == a'[i];
        }
      }
    }
  }

  /** What one producer logs is stored in the order of its calls, whatever else is dropped or fails. */
  lemma StoredKeepsCallOrder(capacity: nat, steps: seq<Step>)
    ensures var s := Run(Init(capacity), steps);
            Subsequence(Stored(s), s.entered) && ProducersInOrder(Stored(s))
  {
    InitIsSound(capacity);
    EveryRunIsSound(Init(capacity), steps);
    var s := Run(Init(capacity), steps);
    StoredKeepsEntryOrder(s);
    SubsequenceInOrder(Stored(s), s.entered);
  }

  /** Departures are exactly the earliest entries, so each eviction takes the oldest one queued. */
  lemma {:induction false} EvictionTakesOldest(s: State, evicted: Entry, kept: Entry)
    requires Sound(s) && evicted in Evicted(s) && kept in s.queue
    ensures exists i, j :: 0 <= i < j < |s.entered| && s.entered[i] == evicted && s.entered[j] == kept
  {
    ReceivedIsSubsequence(s.departed, true);
    SubsequenceMember(Evicted(s), Entries(s.departed), evicted);
    var gone := Entries(s.departed);
    var i :| 0 <= i < |gone| && gone[i] == evicted;
    var k :| 0 <= k < |s.queue| && s.queue[k] == kept;
    assert s.entered == gone + s.queue;
    assert (gone + s.queue)[i] == evicted && (gone + s.queue)[|gone| + k] == kept;
  }

  // ---------------------------------------------------------------- when an entry is abandoned

  /** A Record call about to retry, with room in the channel. */
  ghost predicate RoomFor(s: State, p: ProducerId) {
    p in s.pending && s.pending[p].MustRetry? && |s.queue| < s.capacity
  }

  lemma RoomStays(s: State, step: Step, p: ProducerId)
    requires RoomFor(s, p) && step != Retry(p)
    ensures |Advance(s, step).entered| > |s.entered| || RoomFor(Advance(s, step), p)
  {
  }

  lemma {:induction false} RoomIsTakenByOthers(s: State, steps: seq<Step>, p: ProducerId)
    requires RoomFor(s, p)
    requires forall i :: 0 <= i < |steps| ==> steps[i] != Retry(p)
    requires Advance(Run(s, steps), Retry(p)).abandoned != Run(s, steps).abandoned
    ensures |Run(s, steps).entered| > |s.entered|
    decreases |steps|
  {
    if steps != [] {
      var next := Advance(s, steps[0]);
      EnteredGrows(next, steps[1..]);
      RoomStays(s, steps[0], p);
      if RoomFor(next, p) {
        RoomIsTakenByOthers(next, steps[1..], p);
      }
    }
  }

  /** Only other producers' sends can fill the place an eviction makes: a call that evicted and is abandoned
      at its retry was overtaken by another entry. */
  lemma AbandonedOnlyIfOvertaken(s: State, steps: seq<Step>, p: ProducerId)
    requires Sound(s) && s.capacity >= 1 && p in s.pending && s.pending[p].MustEvict?
    requires forall i :: 0 <= i < |steps| ==> steps[i] != Retry(p)
    requires var t := Run(Advance(s, Evict(p)), steps); Advance(t, Retry(p)).abandoned != t.abandoned
    ensures |Run(Advance(s, Evict(p)), steps).entered| > |s.entered|
  {
    var freed := Advance(s, Evict(p));
    assert RoomFor(freed, p) && freed.entered == s.entered;
    RoomIsTakenByOthers(freed, steps, p);
  }

  lemma {:induction false} EnteredGrows(s: State, steps: seq<Step>)
    ensures |s.entered| <= |Run(s, steps).entered|
    ensures |s.recorded| <= |Run(s, steps).recorded|
    decreases |steps|
  {
    if steps != [] { EnteredGrows(Advance(s, steps[0]), steps[1..]); }
  }

  /** With a single producer: all recorded entries entered the channel or are about to, so nothing is
      ever abandoned and what is evicted is the oldest entry recorded. */
  ghost predicate Alone(s: State, p: ProducerId) {
    && !s.closed && s.panicked == [] && s.abandoned == []
    && (forall q :: q in s.pending ==> q == p)
    && (if p in s.pending then s.recorded == s.entered + [s.pending[p].entry] else s.recorded == s.entered)
    && (p in s.pending && s.pending[p].MustRetry? ==> |s.queue| < s.capacity)
  }

  predicate OnlyProducer(step: Step, p: ProducerId) {
    (step.Send? ==> step.producer == p) && !step.Close?
  }

  lemma StepKeepsAlone(s: State, step: Step, p: ProducerId)
    requires Alone(s, p) && OnlyProducer(step, p) && |s.queue| <= s.capacity && s.capacity >= 1
    ensures Alone(Advance(s, step), p)
  {
  }

  lemma {:induction false} SingleProducerNeverAbandons(s: State, steps: seq<Step>, p: ProducerId)
    requires Sound(s) && Alone(s, p) && s.capacity >= 1
    requires forall i :: 0 <= i < |steps| ==> OnlyProducer(steps[i], p)
    ensures Alone(Run(s, steps), p)
    decreases |steps|
  {
    if steps != [] {
      StepKeepsAlone(s, steps[0], p);
      StepKeepsSound(s, steps[0]);
      SingleProducerNeverAbandons(Advance(s, steps[0]), steps[1..], p);
    }
  }

  lemma {:induction false} HistoriesGrow(s: State, steps: seq<Step>)
    ensures s.entered <= Run(s, steps).entered && |s.departed| <= |Run(s, steps).departed|
    decreases |steps|
  {
    if steps != [] {
      StepGrows(s, steps[0]);
      HistoriesGrow(Advance(s, steps[0]), steps[1..]);
    }
  }

  lemma StepGrows(s: State, step: Step)
    ensures s.entered <= Advance(s, step).entered && |s.departed| <= |Advance(s, step).departed|
  {
  }

  lemma {:induction false} AsManyEntries(ds: seq<Departure>)
    ensures |Entries(ds)| == |ds|
  {
    if ds != [] { AsManyEntries(ds[..|ds| - 1]); }
  }

  /** The queue is the tail of what has entered. */
  lemma QueuePlaces(s: State)
    requires Fifo(s)
    ensures |s.entered| == |s.departed| + |s.queue|
    ensures forall i :: 0 <= i < |s.queue| ==> s.entered[|s.departed| + i] == s.queue[i]
  {
    AsManyEntries(s.departed);
    forall i | 0 <= i < |s.queue| ensures s.entered[|s.departed| + i] == s.queue[i] {
      assert (Entries(s.departed) + s.queue)[|s.departed| + i] == s.queue[i];
    }
  }

  lemma BothCounted(es: seq<Entry>, i: nat, j: nat)
    requires i < j < |es|
    ensures multiset(es)[es[i]] >= if es[i] == es[j] then 2 else 1
  {
    assert es == es[..j] + [es[j]] + es[j + 1..];
    assert es[i] in es[..j];
    assert multiset(es) == multiset(es[..j]) + multiset([es[j]]) + multiset(es[j + 1..]);
  }

  lemma EnteredOnce(s: State, i: nat, j: nat)
    requires OncePerRecord(s) && i < j < |s.entered|
    ensures s.entered[i] != s.entered[j]
  {
    assert Times(s, s.entered[i]) <= 1;
    BothCounted(s.entered, i, j);
  }

  ghost predicate EnteredSince(s: State, t: State, e: Entry) {
    exists j :: |s.entered| <= j < |t.entered| && t.entered[j] == e
  }

  /** What the next eviction takes, seen from an earlier state: an entry that was queued then exactly when
      fewer entries have left since than were queued. A call that met the full channel in that state
      therefore drops an entry older than its own visit, or one that entered after it. */
  lemma EvictsQueuedEntryIff(s: State, steps: seq<Step>, p: ProducerId)
    requires Sound(s)
    requires var t := Run(s, steps); t.queue != [] && p in t.pending && t.pending[p].MustEvict?
    ensures var t := Run(s, steps);
            && Evicted(Advance(t, Evict(p))) == Evicted(t) + [t.queue[0]]
            && (t.queue[0] in s.queue <==> |t.departed| - |s.departed| < |s.queue|)
            && (t.queue[0] !in s.queue ==> EnteredSince(s, t, t.queue[0]))
  {
    var t := Run(s, steps);
    DepartedSnoc(t.departed, Departure(t.queue[0], true));
    EveryRunIsSound(s, steps);
    FirstQueued(s, t, steps);
  }

  lemma FirstQueued(s: State, t: State, steps: seq<Step>)
    requires Sound(s) && Sound(t) && t == Run(s, steps) && t.queue != []
    ensures t.queue[0] in s.queue <==> |t.departed| - |s.departed| < |s.queue|
    ensures t.queue[0] !in s.queue ==> EnteredSince(s, t, t.queue[0])
  {
    HistoriesGrow(s, steps);
    QueuePlaces(s);
    QueuePlaces(t);
    var k := |t.departed|;
    assert t.entered[k] == t.queue[0];
    if k < |s.entered| {
      assert s.queue[k - |s.departed|] == s.entered[k] == t.entered[k];
    } else {
      forall i | 0 <= i < |s.queue| ensures s.queue[i] != t.queue[0] {
        assert s.queue[i] == s.entered[|s.departed| + i] == t.entered[|s.departed| + i];
        EnteredOnce(t, |s.departed| + i, k);
      }
    }
  }

  /** With several producers an eviction may take an entry recorded after the one it makes room for. */
  lemma EvictionMayDropYounger()
    ensures var s := Run(Init(1), [Send(1, "a"), Send(2, "b"), Receive, Send(3, "c"), Evict(2), Retry(2)]);
            Evicted(s) == [Entry(3, 2, "c")] && s.queue == [Entry(2, 1, "b")]
  {
    var s1 := Advance(Init(1), Send(1, "a"));
    var s2 := Advance(s1, Send(2, "b"));
    var s3 := Advance(s2, Receive);
    var s4 := Advance(s3, Send(3, "c"));
    var s5 := Advance(s4, Evict(2));
    var s6 := Advance(s5, Retry(2));
    assert s6.queue == [Entry(2, 1, "b")];
    assert s6.departed == [Departure(Entry(1, 0, "a"), false), Departure(Entry(3, 2, "c"), true)];
    DepartedSnoc([Departure(Entry(1, 0, "a"), false)], Departure(Entry(3, 2, "c"), true));
    DepartedSnoc([], Departure(Entry(1, 0, "a"), false));
    assert Run(Init(1), [Send(1, "a"), Send(2, "b"), Receive, Send(3, "c"), Evict(2), Retry(2)])
        == Run(s3, [Send(3, "c"), Evict(2), Retry(2)]);
    assert Run(s3, [Send(3, "c"), Evict(2), Retry(2)]) == s6;
  }

  ghost predicate Spare(s: State) {
    s.pending == map[] && Evicted(s) == [] && s.abandoned == [] && |s.queue| <= |s.recorded|
  }

  lemma StepKeepsSpare(s: State, step: Step)
    requires Spare(s) && |Advance(s, step).recorded| <= s.capacity
    ensures Spare(Advance(s, step)) && Advance(s, step).capacity == s.capacity
  {
    if step.Receive? && s.queue != [] { DepartedSnoc(s.departed, Departure(s.queue[0], false)); }
  }

  /** As long as no more was recorded than the channel holds, nothing is dropped. */
  lemma {:induction false} NothingDroppedWithinCapacity(s: State, steps: seq<Step>)
    requires Spare(s) && |Run(s, steps).recorded| <= s.capacity
    ensures Evicted(Run(s, steps)) == [] && Run(s, steps).abandoned == []
    decreases |steps|
  {
    if steps != [] {
      var next := Advance(s, steps[0]);
      EnteredGrows(next, steps[1..]);
      StepKeepsSpare(s, steps[0]);
      NothingDroppedWithinCapacity(next, steps[1..]);
    }
  }

  // ---------------------------------------------------------------- what gets stored, and when

  lemma RowsSnoc(fs: seq<Flush>, f: Flush)
    ensures RowsOf(fs + [f], f.ok) == RowsOf(fs, f.ok) + f.rows
    ensures RowsOf(fs + [f], !f.ok) == RowsOf(fs, !f.ok)
  {
    assert (fs + [f])[..|fs|] == fs;
  }

  /** The consumer's own next step, the insert outcomes being up to the database. */
  function ConsumerStep(s: State, ok: bool): Step {
    match s.consumer
    case Waiting => Receive
    case Building(_) => Append
    case Flushing => Insert(ok)
    case LastFlush => Insert(ok)
    case Stopped => Insert(ok)
  }

  /** The consumer running by itself, until it stops. */
  function DrainLength(s: State): nat {
    4 * |s.queue| + match s.consumer
                    case Waiting => 3
                    case Building(_) => 5
                    case Flushing => 4
                    case LastFlush => 1
                    case Stopped => 0
  }

  /** A tick stores what has been batched: the insert that follows it empties the batch into the table, or
      into the failed inserts, and the consumer waits again. */
  lemma TickStoresBatch(s: State, ok: bool)
    requires s.consumer == Waiting
    ensures var t := Advance(Advance(s, TickFires), Insert(ok));
            && t.consumer == Waiting && t.batch == [] && t.queue == s.queue
            && Stored(t) == Stored(s) + (if ok then s.batch else [])
            && FailedInserts(t) == FailedInserts(s) + (if ok then [] else s.batch)
  {
    RowsSnoc(s.flushes, Flush(s.batch, ok));
  }

  /** A received entry joins the batch at its end, and exactly the hundredth makes the batch go out. */
  lemma FullBatchGoesOut(s: State)
    requires Bounded(s) && s.consumer.Building?
    ensures var t := Advance(s, Append);
            && t.batch == s.batch + [s.consumer.entry] && t.flushes == s.flushes
            && t.consumer == if |t.batch| == 100 then Flushing else Waiting
  {
  }

  /** A call with nobody in between: its entry ends up last in the channel; a full channel gives up its
      oldest entry for it, a channel with room gives up nothing. */
  lemma RecordAlone(s: State, p: ProducerId, body: string)
    requires !s.closed && p !in s.pending && s.capacity >= 1 && |s.queue| <= s.capacity
    ensures var e := Entry(p, |s.recorded|, body);
            var t := Advance(Advance(Advance(s, Send(p, body)), Evict(p)), Retry(p));
            && t.recorded == s.recorded + [e] && t.entered == s.entered + [e] && t.pending == s.pending
            && t.abandoned == s.abandoned && t.panicked == s.panicked
            && t.queue == (if |s.queue| == s.capacity then s.queue[1..] else s.queue) + [e]
            && Evicted(t) == Evicted(s) + (if |s.queue| == s.capacity then [s.queue[0]] else [])
  {
    if |s.queue| == s.capacity {
      DepartedSnoc(s.departed, Departure(s.queue[0], true));
      var e := Entry(p, |s.recorded|, body);
      assert s.pending[p := MustEvict(e)][p := MustRetry(e)] - {p} == s.pending;
    }
  }

  /** A call on a closed channel panics with its entry, and changes nothing else. */
  lemma RecordOnClosed(s: State, p: ProducerId, body: string)
    requires s.closed && p !in s.pending
    ensures var e := Entry(p, |s.recorded|, body);
            Advance(s, Send(p, body)) == s.(recorded := s.recorded + [e], panicked := s.panicked + [e])
  {
  }

  /** What the table holds or will hold if the consumer goes on: the stored rows, then the batch, the entry
      in hand and the queue, in that order. */
  function Line(s: State): seq<Entry> {
    Stored(s) + (s.batch + (InHand(s.consumer) + s.queue))
  }

  lemma JoinLater(a: seq<Entry>, b: seq<Entry>, e: Entry, c: seq<Entry>)
    ensures a + (b + ([e] + c)) == a + ((b + [e]) + ([] + c))
  {
  }

  lemma JoinStored(a: seq<Entry>, b: seq<Entry>, c: seq<Entry>)
    ensures a + (b + ([] + c)) == (a + b) + ([] + ([] + c))
  {
  }

  lemma JoinFirst(q: seq<Entry>)
    requires q != []
    ensures [q[0]] + q[1..] == [] + q
  {
  }

  lemma AppendMovesLineOn(s: State)
    ensures Line(Advance(s, Append)) == Line(s)
  {
    if s.consumer.Building? { JoinLater(Stored(s), s.batch, s.consumer.entry, s.queue); }
  }

  lemma ReceiveMovesLineOn(s: State)
    ensures Line(Advance(s, Receive)) == Line(s)
  {
    if s.consumer == Waiting && s.queue != [] { JoinFirst(s.queue); }
  }

  lemma InsertMovesLineOn(s: State)
    ensures Line(Advance(s, Insert(true))) == Line(s)
  {
    if s.consumer == Flushing || s.consumer == LastFlush {
      RowsSnoc(s.flushes, Flush(s.batch, true));
      JoinStored(Stored(s), s.batch, s.queue);
    }
  }

  /** As long as inserts succeed no step of the consumer, ticks included, loses or reorders anything on its
      way to the table. */
  lemma ConsumerMovesLineOn(s: State, step: Step)
    requires step == TickFires || step == ConsumerStep(s, true)
    ensures Line(Advance(s, step)) == Line(s)
  {
    match step
    case Append => AppendMovesLineOn(s);
    case Receive => ReceiveMovesLineOn(s);
    case Insert(_) => InsertMovesLineOn(s);
    case TickFires =>
  }

  /** The consumer running by itself until it has nothing left to receive. */
  lemma {:induction false} CatchesUp(s: State) returns (steps: seq<Step>)
    requires !s.closed && (s.consumer == Waiting || s.consumer.Building? || s.consumer == Flushing)
    ensures forall i :: 0 <= i < |steps| ==> steps[i] == Receive || steps[i] == Append || steps[i] == Insert(true)
    ensures var t := Run(s, steps);
            t.consumer == Waiting && t.queue == [] && Line(t) == Line(s)
    decreases DrainLength(s)
  {
    steps := [];
    if s.consumer != Waiting || s.queue != [] {
      var step := ConsumerStep(s, true);
      ConsumerMovesLineOn(s, step);
      var rest := CatchesUp(Advance(s, step));
      steps := [step] + rest;
      assert steps[1..] == rest;
    }
  }

  lemma FourParts(a: seq<Entry>, b: seq<Entry>, c: seq<Entry>, d: seq<Entry>)
    ensures a + (b + (c + d)) == a + b + c + d
  {
  }

  /** The line, part by part. */
  lemma LineIs(s: State)
    ensures Line(s) == Stored(s) + s.batch + InHand(s.consumer) + s.queue
  {
    FourParts(Stored(s), s.batch, InHand(s.consumer), s.queue);
  }

  lemma NothingInHand(s: State)
    requires !s.consumer.Building? && s.queue == []
    ensures Line(s) == Stored(s) + s.batch
  {
    LineIs(s);
    FourParts(Stored(s), s.batch, [], []);
  }

  /** An open channel has a consumer. */
  lemma OpenIsRunning(s: State)
    requires Bounded(s) && !s.closed
    ensures s.consumer == Waiting || s.consumer.Building? || s.consumer == Flushing
  {
  }

  lemma EmptiesIntoStore(s: State) returns (steps: seq<Step>)
    requires !s.closed && (s.consumer == Waiting || s.consumer.Building? || s.consumer == Flushing)
    ensures forall i :: 0 <= i < |steps| ==> steps[i] == Insert(true) || steps[i] in {Receive, Append, TickFires}
    ensures var t := Run(s, steps + [TickFires, Insert(true)]);
            t.consumer == Waiting && t.queue == [] && t.batch == [] && Stored(t) == Line(s)
  {
    steps := CatchesUp(s);
    var u := Run(s, steps);
    TickStoresBatch(u, true);
    TwoMore(s, steps, TickFires, Insert(true));
    NothingInHand(u);
  }

  /** From every sound state with an open channel the consumer, by its own steps and one tick, without any
      shutdown, stores the batch, the entry in hand and the queue in their order and waits again. */
  lemma OpenChannelEmptiesIntoStore(s: State) returns (steps: seq<Step>)
    requires Sound(s) && !s.closed
    ensures forall i :: 0 <= i < |steps| ==> steps[i] == Insert(true) || steps[i] in {Receive, Append, TickFires}
    ensures var t := Run(s, steps + [TickFires, Insert(true)]);
            && t.consumer == Waiting && t.queue == [] && t.batch == []
            && Stored(t) == Stored(s) + s.batch + InHand(s.consumer) + s.queue
  {
    OpenIsRunning(s);
    steps := EmptiesIntoStore(s);
    LineIs(s);
  }

  lemma {:induction false} TwoMore(s: State, steps: seq<Step>, a: Step, b: Step)
    ensures Run(s, steps + [a, b]) == Advance(Advance(Run(s, steps), a), b)
    decreases |steps|
  {
    if steps == [] {
      assert steps + [a, b] == [a, b] && [a, b][1..] == [b] && [b][1..] == [];
      assert Run(Advance(s, a), [b]) == Advance(Advance(s, a), b);
    } else {
      assert (steps + [a, b])[1..] == steps[1..] + [a, b];
      TwoMore(Advance(s, steps[0]), steps[1..], a, b);
    }
  }

  // ---------------------------------------------------------------- shutting down

  function Drain(s: State, ok: bool): State
    requires s.closed
    decreases DrainLength(s)
  {
    if s.consumer == Stopped then s else Drain(Advance(s, ConsumerStep(s, ok)), ok)
  }

  lemma ConsumerStepDropsNothing(s: State, ok: bool)
    ensures var next := Advance(s, ConsumerStep(s, ok));
            && next.entered == s.entered && Evicted(next) == Evicted(s)
            && (ok ==> FailedInserts(next) == FailedInserts(s))
  {
    if s.consumer == Waiting && s.queue != [] {
      DepartedSnoc(s.departed, Departure(s.queue[0], false));
    } else if s.consumer == Flushing || s.consumer == LastFlush {
      RowsSnoc(s.flushes, Flush(s.batch, ok));
    }
  }

  lemma StoppedIsEmpty(s: State)
    requires Sound(s) && s.consumer == Stopped
    ensures s.queue == [] && s.batch == []
  {
  }

  lemma {:induction false} DrainStops(s: State, ok: bool) returns (steps: seq<Step>)
    requires s.closed
    ensures Drain(s, ok) == Run(s, steps) && Drain(s, ok).consumer == Stopped
    decreases DrainLength(s)
  {
    steps := [];
    if s.consumer != Stopped {
      var step := ConsumerStep(s, ok);
      var rest := DrainStops(Advance(s, step), ok);
      steps := [step] + rest;
      assert steps[1..] == rest;
    }
  }

  lemma {:induction false} DrainDropsNothing(s: State, ok: bool)
    requires s.closed
    ensures var t := Drain(s, ok);
            t.entered == s.entered && Evicted(t) == Evicted(s) && (ok ==> FailedInserts(t) == FailedInserts(s))
    decreases DrainLength(s)
  {
    if s.consumer != Stopped {
      ConsumerStepDropsNothing(s, ok);
      DrainDropsNothing(Advance(s, ConsumerStep(s, ok)), ok);
    }
  }

  /** Once the channel is closed the consumer stops by itself, with the channel and the batch empty and
      nothing more dropped on the way. */
  lemma CloseDrainsEverything(s: State, ok: bool)
    requires Sound(s) && s.closed
    ensures var t := Drain(s, ok);
            && Sound(t) && t.consumer == Stopped && t.queue == [] && t.batch == []
            && t.entered == s.entered && Evicted(t) == Evicted(s)
            && (ok ==> FailedInserts(t) == FailedInserts(s))
  {
    var steps := DrainStops(s, ok);
    EveryRunIsSound(s, steps);
    StoppedIsEmpty(Drain(s, ok));
    DrainDropsNothing(s, ok);
  }

  lemma DrainStep(s: State, ok: bool)
    requires s.closed && s.consumer != Stopped
    ensures var next := Advance(s, ConsumerStep(s, ok));
            next.closed && DrainLength(next) < DrainLength(s) && Drain(s, ok) == Drain(next, ok)
  {
  }

  lemma {:induction false} DrainMovesLineOn(s: State)
    requires s.closed
    ensures Line(Drain(s, true)) == Line(s)
    decreases DrainLength(s)
  {
    if s.consumer != Stopped {
      DrainStep(s, true);
      ConsumerMovesLineOn(s, ConsumerStep(s, true));
      DrainMovesLineOn(Advance(s, ConsumerStep(s, true)));
    }
  }

  /** Closing an open channel does nothing but close it, and the consumer, left to itself with inserts
      succeeding, then stores batch, entry in hand and queue in their order and stops. */
  lemma CloseStoresTheLine(s: State)
    requires Sound(s)
    ensures Advance(s, Close) == s.(closed := true)
    ensures var t := Drain(Advance(s, Close), true);
            && t.consumer == Stopped && t.queue == [] && t.batch == []
            && Stored(t) == Stored(s) + s.batch + InHand(s.consumer) + s.queue
  {
    var c := Advance(s, Close);
    StepKeepsSound(s, Close);
    CloseDrainsEverything(c, true);
    var t := Drain(c, true);
    DrainMovesLineOn(c);
    NothingInHand(t);
    LineIs(s);
    LineIs(c);
    assert Stored(t) + [] == Stored(t);
  }

  /** A proper shutdown, with no Record call under way or still to come, loses nothing to the closed channel. */
  lemma {:induction false} ProperCloseNeverPanics(s: State, steps: seq<Step>)
    requires s.closed && s.pending == map[]
    requires forall i :: 0 <= i < |steps| ==> !steps[i].Send?
    ensures Run(s, steps).panicked == s.panicked
    decreases |steps|
  {
    if steps != [] { ProperCloseNeverPanics(Advance(s, steps[0]), steps[1..]); }
  }

  /** After a proper shutdown whose inserts succeed, an entry that entered the channel is stored unless an
      earlier insert lost it or a full channel evicted it. */
  lemma ShutdownStoresTheRest(s: State, e: Entry)
    requires Sound(s) && s.closed && s.pending == map[] && e in s.recorded
    requires e !in FailedInserts(s) && e !in Evicted(s) && e !in s.abandoned && e !in s.panicked
    ensures multiset(Stored(Drain(s, true)))[e] == 1
  {
    CloseDrainsEverything(s, true);
    DrainLeavesCalls(s, true);
    SoundHasOnePlace(Drain(s, true), e);
  }

  lemma {:induction false} DrainLeavesCalls(s: State, ok: bool)
    requires s.closed
    ensures var t := Drain(s, ok);
            t.pending == s.pending && t.recorded == s.recorded && t.abandoned == s.abandoned && t.panicked == s.panicked
    decreases DrainLength(s)
  {
    if s.consumer != Stopped { DrainLeavesCalls(Advance(s, ConsumerStep(s, ok)), ok); }
  }
}
