/** The in-memory event bus: publishers, readers, cancels and Close in every interleaving of
    their locked sections and channel operations (internal/eventbus/bus.go, types.go). */
module EventBus {
  import opened Wrappers

  const TOPIC_ALL := "*"
  const DEFAULT_BUFFER := 256

  datatype EventType = Hello | ProxyPatch | DonglePatch | OpUpdate | OpDone | SmsReceived | SystemNotice | UnknownType
  {
    predicate Valid() { !UnknownType? }

    function Topic(): string {
      match this
      case ProxyPatch => "proxies"
      case DonglePatch => "dongles"
      case OpUpdate => "operations"
      case OpDone => "operations"
      case SmsReceived => "sms"
      case _ => "system"
    }
  }

  datatype Event = Event(typ: EventType, topic: string, data: int)
  {
    /** An event without a topic goes to the topic of its type. */
    function Addressed(): Event { if topic == [] then this.(topic := typ.Topic()) else this }
  }

  datatype Id = Id(n: nat)

  /** One subscription: what its channel holds, what its reader took, how often it was closed. */
  datatype Chan = Chan(topics: set<string>, since: nat, queue: seq<Event>, got: seq<Event>, closes: nat)
  {
    predicate Wants(e: Event) { TOPIC_ALL in topics || e.topic in topics }
  }

  /** The bus; the subscribers it has let go but whose channel is not closed yet; every event
      accepted; and whether a send or a close ever hit a closed channel. */
  datatype Bus = Bus(buffer: nat, chans: seq<Chan>, subs: set<Id>, closed: bool, closing: multiset<Id>, log: seq<Event>, broken: bool)

  function Start(buffer: int): Bus {
    Bus(if buffer <= 0 then DEFAULT_BUFFER else buffer, [], {}, false, multiset{}, [], false)
  }

  predicate Known(b: Bus, s: Id) { s.n < |b.chans| }

  predicate AllKnown(b: Bus) { forall s :: s in b.subs ==> Known(b, s) }

  // ---- the locked sections and channel operations, as functions ----

  predicate Lags(b: Bus, s: Id, e: Event) {
    s in b.subs && Known(b, s) && b.chans[s.n].Wants(e) && |b.chans[s.n].queue| >= b.buffer
  }

  function Laggards(b: Bus, e: Event): set<Id> { set s | s in b.subs && Lags(b, s, e) }

  /** A send that does not block: the event is queued if there is room. */
  function Offer(b: Bus, i: nat, e: Event): Chan
    requires i < |b.chans|
  {
    var c := b.chans[i];
    if Id(i) in b.subs && c.Wants(e) && |c.queue| < b.buffer then c.(queue := c.queue + [e]) else c
  }

  predicate SendsToClosed(b: Bus, e: Event) {
    exists s :: s in b.subs && Known(b, s) && b.chans[s.n].Wants(e) && b.chans[s.n].closes > 0
  }

  function Publish(b: Bus, raw: Event): Bus {
    if !raw.typ.Valid() || b.closed then b
    else
      var e := raw.Addressed();
      b.(chans := seq(|b.chans|, i requires 0 <= i < |b.chans| => Offer(b, i, e)),
         subs := b.subs - Laggards(b, e),
         closing := b.closing + multiset(Laggards(b, e)),
         log := b.log + [e],
         broken := b.broken || SendsToClosed(b, e))
  }

  lemma PublishIs(b: Bus, raw: Event, chans: seq<Chan>)
    requires raw.typ.Valid() && !b.closed && |chans| == |b.chans|
    requires forall i :: 0 <= i < |chans| ==> chans[i] == Offer(b, i, raw.Addressed())
    ensures var e := raw.Addressed();
            Publish(b, raw) == Bus(b.buffer, chans, b.subs - Laggards(b, e), b.closed, b.closing + multiset(Laggards(b, e)),
                                   b.log + [e], b.broken || SendsToClosed(b, e))
  {
    hide Offer, Laggards, SendsToClosed, Event.Addressed;
    assert chans == Publish(b, raw).chans;
  }

  function Subscribe(b: Bus, topics: set<string>): Bus {
    if b.closed then b
    else
      b.(chans := b.chans + [Chan(if topics == {} then {TOPIC_ALL} else topics, |b.log|, [], [], 0)],
         subs := b.subs + {Id(|b.chans|)})
  }

  function Cancel(b: Bus, s: Id): Bus {
    if s in b.subs then b.(subs := b.subs - {s}, closing := b.closing + multiset{s}) else b
  }

  function Close(b: Bus): Bus {
    if b.closed then b else b.(closed := true, subs := {}, closing := b.closing + multiset(b.subs))
  }

  /** One pending close(ch), by whoever removed the subscriber. */
  function CloseChan(b: Bus, s: Id): Bus
    requires s in b.closing && Known(b, s)
  {
    var c := b.chans[s.n];
    b.(closing := b.closing - multiset{s}, chans := b.chans[s.n := c.(closes := c.closes + 1)], broken := b.broken || c.closes > 0)
  }

  function Read(b: Bus, s: Id): Bus
    requires Known(b, s) && b.chans[s.n].queue != []
  {
    var c := b.chans[s.n];
    b.(chans := b.chans[s.n := c.(queue := c.queue[1..], got := c.got + [c.queue[0]])])
  }

  // ---- the invariant ----

  /** The events of a log a subscription asked for. */
  function Matching(c: Chan, log: seq<Event>): seq<Event> {
    if log == [] then []
    else
      var e := log[|log| - 1];
      Matching(c, log[..|log| - 1]) + if c.Wants(e) then [e] else []
  }

  function Count(b: bool): nat { if b then 1 else 0 }

  /** A subscription has seen a gap-free prefix of what was published for it since it began,
      all of it while it is subscribed; and exactly one of three things is true of it: it is
      subscribed, its close is pending, or its channel was closed once. */
  predicate ChanOk(b: Bus, i: nat)
    requires i < |b.chans|
  {
    var c := b.chans[i];
    && c.since <= |b.log| && |c.queue| <= b.buffer
    && c.got + c.queue <= Matching(c, b.log[c.since..])
    && (Id(i) in b.subs ==> c.got + c.queue == Matching(c, b.log[c.since..]))
    && Count(Id(i) in b.subs) + b.closing[Id(i)] + c.closes == 1
  }

  predicate Inv(b: Bus) {
    && !b.broken && b.buffer > 0
    && AllKnown(b) && (forall s :: s in b.closing ==> Known(b, s))
    && (b.closed ==> b.subs == {})
    && forall i :: 0 <= i < |b.chans| ==> ChanOk(b, i)
  }

  lemma AllAreKnown(b: Bus)
    requires Inv(b)
    ensures AllKnown(b)
  {
  }

  lemma {:induction false} MatchingSame(c: Chan, d: Chan, log: seq<Event>)
    requires c.topics == d.topics
    ensures Matching(c, log) == Matching(d, log)
  {
    if log != [] {
      MatchingSame(c, d, log[..|log| - 1]);
    }
  }

  lemma MatchingStep(c: Chan, log: seq<Event>, since: nat, e: Event)
    requires since <= |log|
    ensures Matching(c, (log + [e])[since..]) == Matching(c, log[since..]) + if c.Wants(e) then [e] else []
  {
    var more := (log + [e])[since..];
    assert more[..|more| - 1] == log[since..];
  }

  lemma PublishKeeps(b: Bus, raw: Event)
    requires Inv(b)
    ensures Inv(Publish(b, raw))
  {
    if raw.typ.Valid() && !b.closed {
      var e, t := raw.Addressed(), Publish(b, raw);
      forall i | 0 <= i < |t.chans| ensures ChanOk(t, i) {
        var c := b.chans[i];
        assert ChanOk(b, i);
        MatchingStep(c, b.log, c.since, e);
        MatchingSame(c, t.chans[i], t.log[c.since..]);
        assert c.got + (c.queue + [e]) == (c.got + c.queue) + [e];
        assert Id(i) in Laggards(b, e) <==> Lags(b, Id(i), e);
      }
      forall s | s in b.subs ensures Known(b, s) && b.chans[s.n].closes == 0 {
        assert ChanOk(b, s.n) && s == Id(s.n);
      }
    }
  }

  lemma OthersOk(b: Bus, t: Bus, i: nat)
    requires i < |b.chans| && i < |t.chans| && ChanOk(b, i)
    requires t.chans[i] == b.chans[i] && t.log == b.log && t.buffer == b.buffer
    requires (Id(i) in t.subs <==> Id(i) in b.subs) && t.closing[Id(i)] == b.closing[Id(i)]
    ensures ChanOk(t, i)
  {
  }

  lemma SubscribeKeeps(b: Bus, topics: set<string>)
    requires Inv(b)
    ensures Inv(Subscribe(b, topics))
  {
    var t := Subscribe(b, topics);
    if !b.closed {
      assert b.log[|b.log|..] == [];
      assert Id(|b.chans|) !in b.closing && Id(|b.chans|) !in b.subs;
      forall i | 0 <= i < |t.chans| ensures ChanOk(t, i) {
        if i < |b.chans| {
          OthersOk(b, t, i);
        }
      }
    }
  }

  lemma CancelKeeps(b: Bus, s: Id)
    requires Inv(b)
    ensures Inv(Cancel(b, s))
  {
    var t := Cancel(b, s);
    forall i | 0 <= i < |t.chans| ensures ChanOk(t, i) {
      assert ChanOk(b, i);
    }
  }

  lemma CloseKeeps(b: Bus)
    requires Inv(b)
    ensures Inv(Close(b))
  {
    var t := Close(b);
    forall i | 0 <= i < |t.chans| ensures ChanOk(t, i) {
      assert ChanOk(b, i);
    }
  }

  lemma CloseChanKeeps(b: Bus, s: Id)
    requires Inv(b) && s in b.closing
    ensures Inv(CloseChan(b, s))
  {
    var t := CloseChan(b, s);
    assert ChanOk(b, s.n) && s == Id(s.n);
    forall i | 0 <= i < |t.chans| ensures ChanOk(t, i) {
      if i == s.n {
        MatchingSame(b.chans[i], t.chans[i], b.log[t.chans[i].since..]);
      } else {
        OthersOk(b, t, i);
      }
    }
  }

  lemma ReadKeeps(b: Bus, s: Id)
    requires Inv(b) && Known(b, s) && b.chans[s.n].queue != []
    ensures Inv(Read(b, s))
  {
    var t, c := Read(b, s), b.chans[s.n];
    assert ChanOk(b, s.n);
    forall i | 0 <= i < |t.chans| ensures ChanOk(t, i) {
      if i == s.n {
        MatchingSame(c, t.chans[i], b.log[c.since..]);
        assert c.got + [c.queue[0]] + c.queue[1..] == c.got + c.queue;
        assert Id(i) in t.subs <==> Id(i) in b.subs;
      } else {
        OthersOk(b, t, i);
      }
    }
  }

  // ---- what a publish does to every subscription ----

  /** The event that goes out: as it came, on the topic of its type if it came with none. */
  function OnTopic(raw: Event): Event {
    if raw.topic != "" then raw
    else Event(raw.typ,
               if raw.typ.ProxyPatch? then "proxies"
               else if raw.typ.DonglePatch? then "dongles"
               else if raw.typ.OpUpdate? || raw.typ.OpDone? then "operations"
               else if raw.typ.SmsReceived? then "sms"
               else "system",
               raw.data)
  }

  predicate Due(b: Bus, i: nat, e: Event)
    requires i < |b.chans|
  {
    Id(i) in b.subs && ("*" in b.chans[i].topics || e.topic in b.chans[i].topics)
  }

  /** Due and with room: queued. Due and full: let go, its close still to come. Everything
      else stays. */
  predicate Delivered(b: Bus, t: Bus, e: Event) {
    && |t.chans| == |b.chans|
    && (forall i :: 0 <= i < |b.chans| ==>
          t.chans[i] == if Due(b, i, e) && |b.chans[i].queue| < b.buffer then b.chans[i].(queue := b.chans[i].queue + [e]) else b.chans[i])
    && (forall i :: 0 <= i < |b.chans| ==> (Id(i) in t.subs <==> Id(i) in b.subs && (Due(b, i, e) ==> |b.chans[i].queue| < b.buffer)))
    && (forall i :: 0 <= i < |b.chans| ==>
          t.closing[Id(i)] == b.closing[Id(i)] + if Due(b, i, e) && |b.chans[i].queue| >= b.buffer then 1 else 0)
  }

  lemma PublishDelivers(b: Bus, raw: Event)
    requires Inv(b)
    ensures raw.typ.UnknownType? || b.closed ==> Publish(b, raw) == b
    ensures !raw.typ.UnknownType? && !b.closed ==>
              Publish(b, raw).log == b.log + [OnTopic(raw)] && Delivered(b, Publish(b, raw), OnTopic(raw))
  {
    if !raw.typ.UnknownType? && !b.closed {
      var e := OnTopic(raw);
      assert e == raw.Addressed();
      forall i | 0 <= i < |b.chans| ensures Id(i) in Laggards(b, e) <==> Due(b, i, e) && |b.chans[i].queue| >= b.buffer {
        assert Id(i) in Laggards(b, e) <==> Lags(b, Id(i), e);
      }
      hide Laggards, Lags, Inv;
    }
  }

  // ---- whole runs ----

  datatype Action = DoPublish(e: Event) | DoSubscribe(topics: set<string>) | DoCancel(s: Id) | DoClose | DoCloseChan(s: Id) | DoRead(s: Id)

  function Next(b: Bus, a: Action): Option<Bus> {
    match a
    case DoPublish(e) => Some(Publish(b, e))
    case DoSubscribe(topics) => Some(Subscribe(b, topics))
    case DoCancel(s) => Some(Cancel(b, s))
    case DoClose => Some(Close(b))
    case DoCloseChan(s) => if s in b.closing && Known(b, s) then Some(CloseChan(b, s)) else None
    case DoRead(s) => if Known(b, s) && b.chans[s.n].queue != [] then Some(Read(b, s)) else None
  }

  /** Any sequence of actions, each of which could be taken, and the states between them. */
  ghost predicate Run(run: seq<Bus>, acts: seq<Action>) {
    && |run| == |acts| + 1 && (exists buffer :: run[0] == Start(buffer))
    && forall k :: 0 <= k < |acts| ==> Next(run[k], acts[k]) == Some(run[k + 1])
  }

  lemma NextKeeps(b: Bus, a: Action)
    requires Inv(b) && Next(b, a).Some?
    ensures Inv(Next(b, a).value)
  {
    hide Inv, Publish, Subscribe, Cancel, Close, CloseChan, Read;
    if a.DoPublish? {
      PublishKeeps(b, a.e);
    } else if a.DoSubscribe? {
      SubscribeKeeps(b, a.topics);
    } else if a.DoCancel? {
      CancelKeeps(b, a.s);
    } else if a.DoClose? {
      CloseKeeps(b);
    } else if a.DoCloseChan? {
      CloseChanKeeps(b, a.s);
    } else {
      ReadKeeps(b, a.s);
    }
  }

  lemma {:induction false} RunKeeps(run: seq<Bus>, acts: seq<Action>, k: nat)
    requires Run(run, acts) && k < |run|
    ensures Inv(run[k])
  {
    if k > 0 {
      RunKeeps(run, acts, k - 1);
      assert Next(run[k - 1], acts[k - 1]) == Some(run[k]);
      hide Inv, Next;
      NextKeeps(run[k - 1], acts[k - 1]);
    }
  }

  // ---- what the actions alone say ----

  /** What publishers got accepted: every event of a known type, until the bus is closed. */
  function Accepted(acts: seq<Action>): seq<Event> {
    if acts == [] then []
    else
      var before, a := acts[..|acts| - 1], acts[|acts| - 1];
      Accepted(before) + if a.DoPublish? && !a.e.typ.UnknownType? && DoClose !in before then [OnTopic(a.e)] else []
  }

  /** The subscriptions made, with what each asked for and how many events were accepted before. */
  function Asked(acts: seq<Action>): seq<(set<string>, nat)> {
    if acts == [] then []
    else
      var before, a := acts[..|acts| - 1], acts[|acts| - 1];
      Asked(before) + if a.DoSubscribe? && DoClose !in before then [(a.topics, |Accepted(before)|)] else []
  }

  /** The events of a list that are on one of the topics; no topics and "*" stand for all. */
  function OnTopics(topics: set<string>, log: seq<Event>): seq<Event> {
    if log == [] then []
    else
      var e := log[|log| - 1];
      OnTopics(topics, log[..|log| - 1]) + if topics == {} || "*" in topics || e.topic in topics then [e] else []
  }

  function Reads(acts: seq<Action>, i: nat): nat {
    if acts == [] then 0
    else Reads(acts[..|acts| - 1], i) + if acts[|acts| - 1] == DoRead(Id(i)) then 1 else 0
  }

  /** The k-th action ends subscription i: its own cancel, Close, or an event due when its
      buffer is full. */
  predicate Ends(run: seq<Bus>, acts: seq<Action>, k: nat, i: nat)
    requires k < |acts| && k < |run| && i < |run[k].chans|
  {
    || acts[k] == DoCancel(Id(i)) || acts[k].DoClose?
    || (acts[k].DoPublish? && !acts[k].e.typ.UnknownType? && Due(run[k], i, OnTopic(acts[k].e)) && |run[k].chans[i].queue| >= run[k].buffer)
  }

  lemma {:induction false} TopicsMatch(c: Chan, topics: set<string>, log: seq<Event>)
    requires c.topics == if topics == {} then {"*"} else topics
    ensures Matching(c, log) == OnTopics(topics, log)
  {
    if log != [] {
      TopicsMatch(c, topics, log[..|log| - 1]);
    }
  }

  lemma PublishStep(b: Bus, raw: Event, i: nat)
    requires i < |b.chans|
    ensures var t, c := Publish(b, raw), b.chans[i];
            && t.buffer == b.buffer && i < |t.chans| && t.subs <= b.subs
            && t.chans[i].topics == c.topics && t.chans[i].since == c.since && t.chans[i].got == c.got
            && (Id(i) !in b.subs ==> t.chans[i] == c)
  {
    hide Laggards, Chan.Wants, SendsToClosed, Event.Addressed;
  }

  /** One action, field by field, for a subscription that was already there. */
  lemma ChanStep(b: Bus, a: Action, i: nat)
    requires Inv(b) && Next(b, a).Some? && i < |b.chans|
    ensures var t, c := Next(b, a).value, b.chans[i];
            && t.buffer == b.buffer && i < |t.chans|
            && t.chans[i].topics == c.topics && t.chans[i].since == c.since
            && |t.chans[i].got| == |c.got| + if a == DoRead(Id(i)) then 1 else 0
    ensures Id(i) !in b.subs ==> Id(i) !in Next(b, a).value.subs
    ensures Id(i) !in b.subs ==> Next(b, a).value.chans[i].got + Next(b, a).value.chans[i].queue == b.chans[i].got + b.chans[i].queue
  {
    hide Inv, Publish, Matching;
    if a.DoPublish? {
      PublishStep(b, a.e, i);
    }
    if a.DoRead? && a.s == Id(i) {
      var c := b.chans[i];
      assert c.got + [c.queue[0]] + c.queue[1..] == c.got + c.queue;
    }
  }

  lemma SubsStep(b: Bus, a: Action, i: nat)
    requires Inv(b) && Next(b, a).Some? && i < |b.chans| && Id(i) in b.subs
    ensures Id(i) in Next(b, a).value.subs <==>
            !(|| a == DoCancel(Id(i)) || a.DoClose?
              || (a.DoPublish? && !a.e.typ.UnknownType? && Due(b, i, OnTopic(a.e)) && |b.chans[i].queue| >= b.buffer))
    ensures Id(i) !in Next(b, a).value.subs ==> Next(b, a).value.chans[i] == b.chans[i]
  {
    if a.DoPublish? {
      PublishDelivers(b, a.e);
    }
    hide Publish, Inv, OnTopic;
  }

  lemma LogStep(b: Bus, a: Action)
    requires Inv(b) && Next(b, a).Some?
    ensures var t := Next(b, a).value;
            && t.closed == (b.closed || a.DoClose?)
            && t.log == b.log + (if a.DoPublish? && !a.e.typ.UnknownType? && !b.closed then [OnTopic(a.e)] else [])
            && |t.chans| == |b.chans| + if a.DoSubscribe? && !b.closed then 1 else 0
    ensures a.DoSubscribe? && !b.closed ==>
              Next(b, a).value.chans[|b.chans|] == Chan(if a.topics == {} then {"*"} else a.topics, |b.log|, [], [], 0)
              && Id(|b.chans|) in Next(b, a).value.subs
  {
    if a.DoPublish? {
      PublishDelivers(b, a.e);
    }
    assert b.log + [] == b.log;
    hide Publish, Inv, OnTopic;
  }

  lemma Snoc(acts: seq<Action>, k: nat)
    requires k < |acts|
    ensures acts[..k + 1][..k] == acts[..k] && acts[..k + 1][k] == acts[k]
    ensures forall a :: a in acts[..k + 1] <==> a in acts[..k] || a == acts[k]
  {
    assert acts[..k + 1] == acts[..k] + [acts[k]];
  }

  /** The log of the bus is what was accepted, and its subscriptions are those asked for. */
  lemma {:induction false} HistoryKept(run: seq<Bus>, acts: seq<Action>, k: nat)
    requires Run(run, acts) && k < |run|
    ensures run[k].closed == (DoClose in acts[..k]) && run[k].log == Accepted(acts[..k])
    ensures |run[k].chans| == |Asked(acts[..k])|
  {
    hide Inv, Next, OnTopic;
    if k == 0 {
      assert acts[..0] == [];
    } else {
      HistoryKept(run, acts, k - 1);
      RunKeeps(run, acts, k - 1);
      assert Next(run[k - 1], acts[k - 1]) == Some(run[k]);
      LogStep(run[k - 1], acts[k - 1]);
      Snoc(acts, k - 1);
    }
  }

  lemma {:induction false} ChansKept(run: seq<Bus>, acts: seq<Action>, k: nat, i: nat)
    requires Run(run, acts) && k < |run| && i < |run[k].chans|
    ensures i < |Asked(acts[..k])|
    ensures var (topics, since) := Asked(acts[..k])[i];
            run[k].chans[i].topics == (if topics == {} then {"*"} else topics) && run[k].chans[i].since == since
    ensures |run[k].chans[i].got| == Reads(acts[..k], i)
  {
    hide Inv, Next, OnTopic, Accepted;
    HistoryKept(run, acts, k);
    if k > 0 {
      HistoryKept(run, acts, k - 1);
      RunKeeps(run, acts, k - 1);
      assert Next(run[k - 1], acts[k - 1]) == Some(run[k]);
      Snoc(acts, k - 1);
      if i < |run[k - 1].chans| {
        ChansKept(run, acts, k - 1, i);
        ChanStep(run[k - 1], acts[k - 1], i);
      } else {
        LogStep(run[k - 1], acts[k - 1]);
        NoReadsYet(run, acts, k - 1, i);
      }
    }
  }

  lemma {:induction false} NoReadsYet(run: seq<Bus>, acts: seq<Action>, k: nat, i: nat)
    requires Run(run, acts) && k < |run| && i >= |run[k].chans|
    ensures Reads(acts[..k], i) == 0
  {
    if k > 0 {
      Snoc(acts, k - 1);
      assert Next(run[k - 1], acts[k - 1]) == Some(run[k]);
      assert |run[k - 1].chans| <= |run[k].chans|;
      NoReadsYet(run, acts, k - 1, i);
    }
  }

  /** Where the subscription ends, if it does. */
  ghost predicate EndedAt(run: seq<Bus>, acts: seq<Action>, j: nat, i: nat)
    requires |run| == |acts| + 1
  {
    j < |acts| && i < |run[j].chans| && Ends(run, acts, j, i) && Id(i) in run[j].subs
  }

  /** All of its events that were accepted before the j-th action are what it ever got. */
  ghost predicate HadAll(run: seq<Bus>, acts: seq<Action>, j: nat, k: nat, i: nat)
    requires j <= k <= |acts| && |run| == |acts| + 1 && i < |run[k].chans| && i < |Asked(acts[..k])|
  {
    var c, (topics, since) := run[k].chans[i], Asked(acts[..k])[i];
    since <= |Accepted(acts[..j])| && c.got + c.queue == OnTopics(topics, Accepted(acts[..j])[since..])
  }

  lemma ChanIsOk(b: Bus, i: nat)
    requires Inv(b) && i < |b.chans|
    ensures var c := b.chans[i];
            && !b.broken && c.closes <= 1 && (c.closes == 1 ==> Id(i) !in b.subs)
            && c.since <= |b.log|
            && (Id(i) in b.subs ==> c.got + c.queue == Matching(c, b.log[c.since..]))
  {
    assert ChanOk(b, i);
    hide Matching;
  }

  lemma HasAll(run: seq<Bus>, acts: seq<Action>, k: nat, i: nat)
    requires Run(run, acts) && k < |run| && i < |run[k].chans| && Id(i) in run[k].subs
    ensures i < |Asked(acts[..k])| && HadAll(run, acts, k, k, i)
  {
    hide Inv, Next, Accepted, Asked, OnTopics, Matching;
    RunKeeps(run, acts, k);
    HistoryKept(run, acts, k);
    ChansKept(run, acts, k, i);
    ChanIsOk(run[k], i);
    var c := run[k].chans[i];
    TopicsMatch(c, Asked(acts[..k])[i].0, run[k].log[c.since..]);
  }

  lemma AskedStays(acts: seq<Action>, k: nat, i: nat)
    requires 0 < k <= |acts| && i < |Asked(acts[..k - 1])|
    ensures i < |Asked(acts[..k])| && Asked(acts[..k])[i] == Asked(acts[..k - 1])[i]
  {
    hide Accepted;
    Snoc(acts, k - 1);
  }

  lemma {:induction false} EndFound(run: seq<Bus>, acts: seq<Action>, k: nat, i: nat)
    requires Run(run, acts) && k < |run| && i < |run[k].chans| && Id(i) !in run[k].subs
    ensures i < |Asked(acts[..k])| && exists j :: 0 <= j < k && EndedAt(run, acts, j, i) && HadAll(run, acts, j, k, i)
  {
    hide Inv, Next, OnTopic, Accepted, Asked, OnTopics, Due;
    ChansKept(run, acts, k, i);
    if k > 0 {
      var b, a := run[k - 1], acts[k - 1];
      RunKeeps(run, acts, k - 1);
      assert Next(b, a) == Some(run[k]);
      LogStep(b, a);
      assert i < |b.chans|;
      ChansKept(run, acts, k - 1, i);
      AskedStays(acts, k, i);
      if Id(i) in b.subs {
        SubsStep(b, a, i);
        HasAll(run, acts, k - 1, i);
        assert EndedAt(run, acts, k - 1, i) && HadAll(run, acts, k - 1, k, i);
      } else {
        ChanStep(b, a, i);
        EndFound(run, acts, k - 1, i);
        var j :| 0 <= j < k - 1 && EndedAt(run, acts, j, i) && HadAll(run, acts, j, k - 1, i);
        assert HadAll(run, acts, j, k, i);
      }
    }
  }

  /** In every interleaving: no send and no close ever hits a closed channel, and none is
      closed twice. Of the events that publishers got accepted since it began, a subscription
      gets those on its topics, in order and without a gap: all of them while it is
      subscribed, and if its own cancel, Close or an event due at a full buffer ended it, all
      of those before. Its reader has taken the first of them, one per read. */
  lemma NothingSkipped(run: seq<Bus>, acts: seq<Action>, k: nat, i: nat)
    requires Run(run, acts) && k < |run| && i < |run[k].chans|
    ensures !run[k].broken && run[k].chans[i].closes <= 1 && (run[k].chans[i].closes == 1 ==> Id(i) !in run[k].subs)
    ensures |Asked(acts[..k])| == |run[k].chans| && Reads(acts[..k], i) == |run[k].chans[i].got|
    ensures Id(i) in run[k].subs ==> HadAll(run, acts, k, k, i)
    ensures Id(i) !in run[k].subs ==> exists j :: 0 <= j < k && EndedAt(run, acts, j, i) && HadAll(run, acts, j, k, i)
  {
    hide Inv, Run, Next, OnTopic, Accepted, Asked, EndedAt, HadAll, Reads, OnTopics;
    RunKeeps(run, acts, k);
    HistoryKept(run, acts, k);
    ChansKept(run, acts, k, i);
    ChanIsOk(run[k], i);
    if Id(i) in run[k].subs {
      HasAll(run, acts, k, i);
    } else {
      EndFound(run, acts, k, i);
    }
  }

  // ---- the bus itself ----

  class MemBus {
    const buffer: nat
    var chans: seq<Chan>
    var subs: set<Id>
    var closed: bool
    var closing: multiset<Id>
    /** How many events were accepted, and which. */
    var published: nat
    ghost var log: seq<Event>
    ghost var broken: bool

    constructor (buffer: int)
      ensures Value() == Start(buffer) && Valid()
    {
      this.buffer := if buffer <= 0 then DEFAULT_BUFFER else buffer;
      chans, subs, closed, closing, published, log, broken := [], {}, false, multiset{}, 0, [], false;
    }

    ghost function Value(): Bus
      reads this
    {
      Bus(buffer, chans, subs, closed, closing, log, broken)
    }

    ghost predicate Valid()
      reads this
    {
      Inv(Value()) && published == |log|
    }

    /** Offers an event to every subscriber that wants it and reports those without room. */
    method OfferAll(e: Event) returns (lagging: set<Id>)
      requires AllKnown(Value())
      modifies this`chans
      ensures |chans| == |old(chans)| && forall i :: 0 <= i < |chans| ==> chans[i] == Offer(old(Value()), i, e)
      ensures lagging == Laggards(old(Value()), e)
    {
      ghost var b := Value();
      lagging := {};
      var left := subs;
      while left != {}
        invariant left <= b.subs && |chans| == |b.chans|
        invariant forall i :: 0 <= i < |chans| ==> chans[i] == if Id(i) in left then b.chans[i] else Offer(b, i, e)
        invariant lagging == set s | s in b.subs && s !in left && Lags(b, s, e)
        decreases |left|
      {
        var s :| s in left;
        assert Known(b, s) && s == Id(s.n);
        left := left - {s};
        var c := chans[s.n];
        if c.Wants(e) {
          if |c.queue| < buffer {
            chans := chans[s.n := c.(queue := c.queue + [e])];
          } else {
            lagging := lagging + {s};
          }
        }
      }
    }

    /** The locked part of Publish: every subscriber that wants the event is offered it, in
        any order, and those without room are let go. */
    method PublishLocked(raw: Event) returns (ok: bool)
      requires Valid()
      modifies this
      ensures Valid() && Value() == Publish(old(Value()), raw)
      ensures ok <==> !raw.typ.UnknownType? && !old(closed)
      ensures ok ==> log == old(log) + [OnTopic(raw)] && published == old(published) + 1
      ensures ok ==> Delivered(old(Value()), Value(), OnTopic(raw))
      ensures !ok ==> Value() == old(Value()) && published == old(published)
    {
      PublishKeeps(Value(), raw);
      PublishDelivers(Value(), raw);
      AllAreKnown(Value());
      hide Inv, Matching, AllKnown, ChanOk, Lags, Laggards, Offer, SendsToClosed, Chan.Wants, Delivered, OnTopic, Event.Addressed, Publish;
      if !raw.typ.Valid() {
        return false;
      }
      var e := raw.Addressed();
      if closed {
        return false;
      }
      ghost var b := Value();
      var lagging := OfferAll(e);
      PublishIs(b, raw, chans);
      subs := subs - lagging;
      closing := closing + multiset(lagging);
      published := published + 1;
      log := log + [e];
      broken := broken || SendsToClosed(b, e);
      ok := true;
    }

    method SubscribeLocked(topics: seq<string>) returns (s: Option<Id>)
      requires Valid()
      modifies this
      ensures Value() == Subscribe(old(Value()), set t | t in topics) && Valid()
      ensures s == if old(closed) then None else Some(Id(|old(chans)|))
      ensures s.Some? ==>
                && subs == old(subs) + {s.value}
                && chans == old(chans) + [Chan(if topics == [] then {"*"} else (set t | t in topics), published, [], [], 0)]
    {
      SubscribeKeeps(Value(), set t | t in topics);
      var wanted: set<string> := {};
      var i := 0;
      while i < |topics|
        invariant 0 <= i <= |topics| && wanted == set t | t in topics[..i]
      {
        assert topics[..i + 1] == topics[..i] + [topics[i]];
        wanted := wanted + {topics[i]};
        i := i + 1;
      }
      assert topics[..i] == topics;
      assert topics == [] || topics[0] in wanted;
      if closed {
        return None;
      }
      s := Some(Id(|chans|));
      chans := chans + [Chan(if wanted == {} then {TOPIC_ALL} else wanted, published, [], [], 0)];
      subs := subs + {s.value};
    }

    method CancelLocked(s: Id) returns (live: bool)
      requires Valid()
      modifies this
      ensures Value() == Cancel(old(Value()), s) && Valid()
      ensures live == (s in old(subs))
    {
      CancelKeeps(Value(), s);
      live := s in subs;
      subs := subs - {s};
      if live {
        closing := closing + multiset{s};
      }
    }

    method CloseLocked()
      requires Valid()
      modifies this
      ensures Value() == Close(old(Value())) && Valid()
    {
      CloseKeeps(Value());
      if closed {
        return;
      }
      closed := true;
      var gone := subs;
      subs := {};
      closing := closing + multiset(gone);
    }
  }
}
