/** Any number of callers sharing one client, interleaved at every lock and every message,
    against a device whose session may be disturbed at any time
    (internal/device/hilink/transport.go, session.go; internal/device/sim/device.go). */
module HiLinkCallers {
  import opened Wrappers
  import opened HiLink
  import opened HiLinkClient

  datatype Phase =
    | Begin
    | Ensure
    | Shaking
    | Shook(cookie: Cookie, fresh_: seq<Token>)
    | Ready
    | Sent(req: Request)
    | Answered(reply: Reply, fresh_: seq<Token>, newCookie: Option<Cookie>)
    | Stored(reply: Reply, newCookie: Option<Cookie>)
    | Over

  /** One Get or Post call: its attempt, where it stands, and how often the device has run its body. */
  datatype Caller = Caller(post: bool, body: Body, attempt: nat, phase: Phase, runs: nat)
  {
    /** Tokens on their way back to this caller. */
    function Carried(): seq<Token> { if phase.Shook? || phase.Answered? then phase.fresh_ else [] }

    /** A token error: the next attempt, if there is one. */
    function Retried(): Caller {
      if attempt + 1 < MAX_ATTEMPTS then this.(attempt := attempt + 1, phase := Begin) else this.(phase := Over)
    }
  }

  /** The shared client, the device, the callers, and the token of every POST sent so far. */
  datatype State = State(sess: Sess, dev: Dev, now: int, callers: seq<Caller>, sent: seq<Token>)

  datatype Action =
    | Call(post: bool, body: Body)
    | Start(i: nat)
    | Look(i: nat)
    | ShakeServed(i: nat)
    | ShakeRefused(i: nat)
    | Install(i: nat)
    | Send(i: nat)
    | DeviceAnswers(i: nat, refill: nat, recookie: bool)
    | Absorb(i: nat)
    | Adopt(i: nat)
    | Lost(i: nat)
    | ExpireAll
    | DropSession
    | Tick(ms: nat)
  {
    predicate OfCaller() { Start? || Look? || ShakeServed? || ShakeRefused? || Install? || Send? || DeviceAnswers? || Absorb? || Adopt? || Lost? }
  }

  /** The device answers a request, and may hand out fresh tokens and a fresh cookie with it. */
  function Respond(d: Dev, r: Request, now: int, refill: nat, recookie: bool): (Served, seq<Token>, Option<Cookie>) {
    var s := Serve(d, r, now);
    var store := s.dev.store.Minted(refill, now);
    var cookie := store.nextCookie;
    var changed := if recookie then store.(cookie := Some(cookie), nextCookie := cookie + 1) else store;
    (Served(s.dev.(store := changed), s.reply, s.executed), s.dev.store.Batch(refill), if recookie then Some(cookie) else None)
  }

  function Step(s: State, a: Action): Option<State>
    requires a.OfCaller() && a.i < |s.callers|
  {
    var c := s.callers[a.i];
    match a
    case Start(i) =>
      if !c.phase.Begin? then None
      else Some(s.(callers := s.callers[i := c.(phase := Ensure)], sess := if c.attempt > 0 then NO_SESSION else s.sess))
    case Look(i) =>
      if !c.phase.Ensure? then None
      else Some(s.(callers := s.callers[i := c.(phase := if s.sess.Usable() then Ready else Shaking)]))
    case ShakeServed(i) =>
      if !c.phase.Shaking? then None
      else Some(s.(callers := s.callers[i := c.(phase := Shook(s.dev.store.nextCookie, s.dev.store.Batch(TOKEN_BATCH)))],
                   dev := s.dev.(store := s.dev.store.Shaken(s.now))))
    case ShakeRefused(i) =>
      if !c.phase.Shaking? then None else Some(s.(callers := s.callers[i := c.Retried()]))
    case Install(i) =>
      if !c.phase.Shook? then None
      else Some(s.(callers := s.callers[i := c.(phase := Ready)], sess := s.sess.Installed(Some(c.phase.cookie), c.phase.fresh_)))
    case Send(i) =>
      if !c.phase.Ready? then None
      else if !s.sess.Usable() then Some(s.(callers := s.callers[i := c.Retried()]))
      else
        var token := s.sess.tokens[0];
        var r := Request(c.post, s.sess.cookie.value, token, c.body);
        var t := s.(callers := s.callers[i := c.(phase := Sent(r))]);
        Some(if c.post then t.(sess := s.sess.Taken(), sent := s.sent + [token]) else t)
    case DeviceAnswers(i, refill, recookie) =>
      if !c.phase.Sent? then None
      else
        var (served, ts, ck) := Respond(s.dev, c.phase.req, s.now, refill, recookie);
        var d := c.(phase := Answered(served.reply, ts, ck), runs := c.runs + if served.executed then 1 else 0);
        Some(s.(callers := s.callers[i := d], dev := served.dev))
    case Absorb(i) =>
      if !c.phase.Answered? then None
      else Some(s.(callers := s.callers[i := c.(phase := Stored(c.phase.reply, c.phase.newCookie))],
                   sess := s.sess.Absorbed(c.phase.fresh_)))
    case Adopt(i) =>
      if !c.phase.Stored? then None
      else Some(s.(callers := s.callers[i := if c.phase.reply.TokenError? then c.Retried() else c.(phase := Over)],
                   sess := s.sess.Installed(c.phase.newCookie, [])))
    case Lost(i) =>
      if c.phase.Shaking? || c.phase.Shook? || c.phase.Sent? || c.phase.Answered?
      then Some(s.(callers := s.callers[i := c.(phase := Over)])) else None
  }

  function Next(s: State, a: Action): Option<State> {
    match a
    case Call(post, body) => Some(s.(callers := s.callers + [Caller(post, body, 0, Begin, 0)]))
    case ExpireAll => Some(s.(dev := s.dev.(store := s.dev.store.AllExpired())))
    case DropSession => Some(s.(dev := s.dev.(store := s.dev.store.Invalidated())))
    case Tick(ms) => Some(s.(now := s.now + ms))
    case _ => if a.i < |s.callers| then Step(s, a) else None
  }

  // ---- where tokens can be ----

  predicate Apart(a: seq<Token>, b: seq<Token>) { forall t :: t in a ==> t !in b }

  /** The pool, the tokens carried back to one caller, and the spent ones never overlap or repeat. */
  predicate Parted(pool: seq<Token>, carried: seq<Token>, sent: seq<Token>) {
    Distinct(pool) && Distinct(carried) && Distinct(sent) && Apart(pool, carried) && Apart(pool, sent) && Apart(carried, sent)
  }

  predicate Below(ts: seq<Token>, n: nat) { forall t :: t in ts ==> t < n }

  /** A body has run only on the way to an answer the client does not retry. */
  predicate RunsOk(c: Caller) {
    match c.phase
    case Answered(reply, _, _) => c.runs <= (if c.post && !reply.TokenError? then 1 else 0)
    case Stored(reply, _) => c.runs <= (if c.post && !reply.TokenError? then 1 else 0)
    case Over => c.runs <= (if c.post then 1 else 0)
    case Sent(r) => c.runs == 0 && r.post == c.post
    case _ => c.runs == 0
  }

  predicate Inv(s: State) {
    && s.dev.store.Valid()
    && Parted(s.sess.tokens, [], s.sent)
    && Below(s.sess.tokens, s.dev.store.nextToken) && Below(s.sent, s.dev.store.nextToken)
    && (forall c :: c in s.callers ==> RunsOk(c) && Parted(s.sess.tokens, c.Carried(), s.sent) && Below(c.Carried(), s.dev.store.nextToken))
    && (forall i, j :: 0 <= i < j < |s.callers| ==> Apart(s.callers[i].Carried(), s.callers[j].Carried()))
  }

  /** Where a token of the new state came from: one of the places the step touched, or the mint. */
  predicate From(ts: seq<Token>, s: State, carried: seq<Token>, next: nat) {
    forall t :: t in ts ==> t in s.sess.tokens || t in carried || t in s.sent || s.dev.store.nextToken <= t < next
  }

  /** A step of one caller only has to keep its own corner in order. */
  lemma LocalStep(s: State, t: State, i: nat, d: Caller)
    requires Inv(s) && i < |s.callers| && t.callers == s.callers[i := d]
    requires t.dev.store.Valid() && s.dev.store.nextToken <= t.dev.store.nextToken
    requires RunsOk(d) && Parted(t.sess.tokens, d.Carried(), t.sent)
    requires From(t.sess.tokens, s, s.callers[i].Carried(), t.dev.store.nextToken)
    requires From(d.Carried(), s, s.callers[i].Carried(), t.dev.store.nextToken)
    requires From(t.sent, s, s.callers[i].Carried(), t.dev.store.nextToken)
    ensures Inv(t)
  {
    hide RunsOk, Caller.Carried, Distinct, Store.Valid;
    var n := s.dev.store.nextToken;
    var mine := s.callers[i].Carried();
    assert s.callers[i] in s.callers;
    forall j | 0 <= j < |s.callers| && j != i
      ensures var other := s.callers[j].Carried();
              Apart(t.sess.tokens, other) && Apart(d.Carried(), other) && Apart(other, t.sent) && Apart(other, d.Carried())
    {
      var other := s.callers[j].Carried();
      assert s.callers[j] in s.callers;
      assert Apart(mine, other) && Apart(other, mine);
      forall x | x in other ensures x !in t.sess.tokens && x !in t.sent && x !in d.Carried() {
        assert x < n && x !in s.sess.tokens && x !in s.sent && x !in mine;
      }
    }
    assert Parted(t.sess.tokens, [], t.sent) by { NothingCarried(t.sess.tokens, d.Carried(), t.sent); }
    forall c | c in t.callers ensures RunsOk(c) && Parted(t.sess.tokens, c.Carried(), t.sent) && Below(c.Carried(), t.dev.store.nextToken) {
      var j :| 0 <= j < |t.callers| && t.callers[j] == c;
      if j != i {
        assert s.callers[j] in s.callers;
      }
    }
  }

  lemma NothingCarried(pool: seq<Token>, carried: seq<Token>, sent: seq<Token>)
    requires Parted(pool, carried, sent)
    ensures Parted(pool, [], sent)
  {
  }

  // ---- every step keeps it ----

  lemma SuffixParted(ts: seq<Token>)
    requires Distinct(ts)
    ensures Distinct(LastBatch(ts))
  {
  }

  /** Taking in what came back: what the pool gains, the caller no longer carries. */
  lemma AbsorbedParted(sess: Sess, carried: seq<Token>, sent: seq<Token>)
    requires Parted(sess.tokens, carried, sent)
    ensures Parted(sess.Absorbed(carried).tokens, [], sent)
    ensures forall t :: t in sess.Absorbed(carried).tokens ==> t in sess.tokens || t in carried
  {
    var all := sess.tokens + carried;
    forall i, j | 0 <= i < j < |all| ensures all[i] != all[j] {
      assert i < |sess.tokens| ==> all[i] in sess.tokens;
      assert j >= |sess.tokens| ==> all[j] in carried;
    }
    SuffixParted(sess.tokens + carried);
  }

  lemma FreshParted(store: Store, n: nat, pool: seq<Token>, sent: seq<Token>)
    requires Parted(pool, [], sent) && Below(pool, store.nextToken) && Below(sent, store.nextToken)
    ensures Parted(pool, store.Batch(n), sent)
  {
  }

  lemma RespondKeeps(d: Dev, r: Request, now: int, refill: nat, recookie: bool)
    requires d.store.Valid()
    ensures var (served, ts, _) := Respond(d, r, now, refill, recookie);
            && served.dev.store.Valid() && served.dev.store.nextToken == d.store.nextToken + refill
            && ts == d.store.Batch(refill)
            && (served.executed ==> r.post && !served.reply.TokenError?)
  {
    ExecutedOnce(d, r, now);
    MintedKnows(Serve(d, r, now).dev.store, refill, now);
  }

  lemma DeviceStep(s: State, a: Action)
    requires Inv(s) && a.OfCaller() && a.i < |s.callers| && (a.ShakeServed? || a.DeviceAnswers?) && Step(s, a).Some?
    ensures Inv(Step(s, a).value)
  {
    var t, c := Step(s, a).value, s.callers[a.i];
    assert c in s.callers;
    if a.ShakeServed? {
      ShakenServes(s.dev.store, s.now);
      MintedKnows(s.dev.store.(cookie := Some(s.dev.store.nextCookie), nextCookie := s.dev.store.nextCookie + 1, tokens := map[]), TOKEN_BATCH, s.now);
      FreshParted(s.dev.store, TOKEN_BATCH, s.sess.tokens, s.sent);
    } else {
      RespondKeeps(s.dev, c.phase.req, s.now, a.refill, a.recookie);
      FreshParted(s.dev.store, a.refill, s.sess.tokens, s.sent);
    }
    hide Inv, Distinct, Apart, Store.Valid, Respond, Store.Shaken, Store.Batch;
    LocalStep(s, t, a.i, t.callers[a.i]);
  }

  lemma ClientStep(s: State, a: Action)
    requires Inv(s) && a.OfCaller() && a.i < |s.callers| && !a.ShakeServed? && !a.DeviceAnswers? && Step(s, a).Some?
    ensures Inv(Step(s, a).value)
  {
    var t, c := Step(s, a).value, s.callers[a.i];
    assert c in s.callers;
    NothingCarried(s.sess.tokens, c.Carried(), s.sent);
    if a.Absorb? {
      AbsorbedParted(s.sess, c.phase.fresh_, s.sent);
    }
    PartedChanges(s.sess, c.Carried(), s.sent);
    hide Distinct, Apart, Store.Valid, LastBatch, Inv;
    LocalStep(s, t, a.i, t.callers[a.i]);
  }

  /** The other moves between the places: a reset, an install, a token spent. */
  lemma PartedChanges(sess: Sess, carried: seq<Token>, sent: seq<Token>)
    requires Parted(sess.tokens, carried, sent)
    ensures Parted([], carried, sent) && Parted([], [], sent)
    ensures Parted(carried, [], sent)
    ensures sess.Usable() ==> Parted(sess.Taken().tokens, carried, sent + [sess.tokens[0]])
    ensures sess.Usable() ==> forall t :: t in sess.Taken().tokens ==> t in sess.tokens
  {
    if sess.Usable() {
      var head, rest := sess.tokens[0], sess.Taken().tokens;
      assert forall i :: 0 <= i < |rest| ==> rest[i] == sess.tokens[i + 1];
      assert head in sess.tokens;
    }
  }

  lemma NextKeepsInv(s: State, a: Action)
    requires Inv(s) && Next(s, a).Some?
    ensures Inv(Next(s, a).value)
  {
    if a.OfCaller() {
      hide Inv, Step;
      if a.ShakeServed? || a.DeviceAnswers? {
        DeviceStep(s, a);
      } else {
        ClientStep(s, a);
      }
    } else {
      hide Distinct;
      if a.Call? {
        assert Distinct([]) by { NoneDistinct(); }
      }
    }
  }

  lemma NoneDistinct()
    ensures Distinct([])
  {
  }

  // ---- whole runs ----

  ghost predicate Steps(s: State, t: State) { exists a :: Next(s, a) == Some(t) }

  ghost predicate Run(run: seq<State>) {
    && run != []
    && run[0].sess == NO_SESSION && run[0].callers == [] && run[0].sent == [] && run[0].dev.store.Valid()
    && forall k :: 0 < k < |run| ==> Steps(run[k - 1], run[k])
  }

  lemma {:induction false} RunKeepsInv(run: seq<State>, k: nat)
    requires Run(run) && k < |run|
    ensures Inv(run[k])
  {
    if k > 0 {
      RunKeepsInv(run, k - 1);
      var a :| Next(run[k - 1], a) == Some(run[k]);
      hide Inv, Next;
      NextKeepsInv(run[k - 1], a);
    }
  }

  /** In every interleaving no token is ever sent in two POSTs, and the device runs the body
      of each call at most once. */
  lemma OneTokenOneRun(run: seq<State>, k: nat)
    requires Run(run) && k < |run|
    ensures Distinct(run[k].sent)
    ensures forall c :: c in run[k].callers ==> c.runs <= 1 && (c.runs == 1 ==> c.post && (c.phase.Answered? || c.phase.Stored? || c.phase.Over?))
  {
    RunKeepsInv(run, k);
  }
}
