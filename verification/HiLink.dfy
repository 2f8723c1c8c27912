/** The one-shot tokens a dongle hands out and the session a client keeps: the pool in
    internal/device/hilink/session.go, the device's table in
    internal/device/sim/tokenstore.go and its order of checks in internal/device/sim/device.go. */
module HiLink {
  import opened Wrappers

  /** A token or cookie is the number of random strings drawn before it, so that a fresh
      one equals no earlier one. */
  type Token = nat
  type Cookie = nat

  const TOKEN_BATCH := 30
  const MAX_ATTEMPTS := 2

  // ---- the client's session ----

  datatype Sess = Sess(cookie: Option<Cookie>, tokens: seq<Token>)
  {
    predicate Usable() { cookie.Some? && tokens != [] }

    function Taken(): Sess
      requires Usable()
    {
      this.(tokens := tokens[1..])
    }

    function Installed(c: Option<Cookie>, ts: seq<Token>): Sess {
      Sess(if c.Some? then c else cookie, if ts != [] then ts else tokens)
    }

    function Absorbed(ts: seq<Token>): Sess {
      if ts == [] then this else this.(tokens := LastBatch(tokens + ts))
    }
  }

  const NO_SESSION := Sess(None, [])

  function LastBatch(ts: seq<Token>): (r: seq<Token>)
    ensures |r| <= TOKEN_BATCH
    ensures forall t :: t in r ==> t in ts
  {
    if |ts| > TOKEN_BATCH then ts[|ts| - TOKEN_BATCH..] else ts
  }

  class Session {
    var cookie: Option<Cookie>
    var tokens: seq<Token>

    constructor ()
      ensures Value() == NO_SESSION
    {
      cookie, tokens := None, [];
    }

    function Value(): Sess
      reads this
    {
      Sess(cookie, tokens)
    }

    method Snapshot() returns (r: Option<(Cookie, Token)>)
      ensures r.Some? <==> Value().Usable()
      ensures r.Some? ==> r.value == (cookie.value, tokens[0])
    {
      if cookie.None? || |tokens| == 0 {
        return None;
      }
      r := Some((cookie.value, tokens[0]));
    }

    method Take() returns (r: Option<(Cookie, Token)>)
      modifies this`tokens
      ensures r.Some? <==> old(Value().Usable())
      ensures r.Some? ==> Value() == old(Value().Taken()) && r.value == old((cookie.value, tokens[0]))
      ensures r.Some? ==> [r.value.1] + tokens == old(tokens) && Some(r.value.0) == old(cookie)
      ensures r.None? ==> Value() == old(Value())
    {
      if cookie.None? || |tokens| == 0 {
        return None;
      }
      var token := tokens[0];
      tokens := tokens[1..];
      r := Some((cookie.value, token));
    }

    method Reset()
      modifies this
      ensures Value() == NO_SESSION
    {
      cookie, tokens := None, [];
    }

    method Install(c: Option<Cookie>, ts: seq<Token>)
      modifies this
      ensures Value() == old(Value()).Installed(c, ts)
      ensures cookie == (if c.Some? then c else old(cookie)) && tokens == if ts == [] then old(tokens) else ts
    {
      if c.Some? {
        cookie := c;
      }
      if |ts| > 0 {
        tokens := ts;
      }
    }

    method Absorb(ts: seq<Token>)
      modifies this`tokens
      ensures Value() == old(Value()).Absorbed(ts)
      ensures ts == [] ==> tokens == old(tokens)
      ensures ts != [] ==> var all := old(tokens) + ts; tokens == if |all| > 30 then all[|all| - 30..] else all
    {
      if |ts| == 0 {
        return;
      }
      tokens := tokens + ts;
      if |tokens| > TOKEN_BATCH {
        tokens := tokens[|tokens| - TOKEN_BATCH..];
      }
    }
  }

  // ---- the device's token table ----

  datatype Entry = Entry(issued: int, used: bool, expired: bool)

  datatype Store = Store(ttl: int, cookie: Option<Cookie>, tokens: map<Token, Entry>, nextToken: nat, nextCookie: nat)
  {
    predicate Valid() {
      && ttl > 0
      && (forall t :: t in tokens ==> t < nextToken)
      && (cookie.Some? ==> cookie.value < nextCookie)
    }

    predicate SessionValid(c: Cookie) { cookie == Some(c) }

    /** Known, not spent, and not past its time. */
    predicate Consumable(t: Token, now: int) {
      t in tokens && !tokens[t].used && !tokens[t].expired && now - tokens[t].issued <= ttl
    }

    /** Consuming marks a good token used and an overdue one expired. */
    function Consumed(t: Token, now: int): Store {
      if t !in tokens || tokens[t].used || tokens[t].expired then this
      else if Consumable(t, now) then this.(tokens := tokens[t := tokens[t].(used := true)])
      else this.(tokens := tokens[t := tokens[t].(expired := true)])
    }

    function Batch(n: nat): (ts: seq<Token>)
      ensures |ts| == n
      ensures forall i :: 0 <= i < n ==> ts[i] == nextToken + i
    {
      seq(n, i => nextToken + i)
    }

    function Minted(n: nat, now: int): Store {
      if n == 0 then this
      else
        var m := Minted(n - 1, now);
        m.(tokens := m.tokens[m.nextToken := Entry(now, false, false)], nextToken := m.nextToken + 1)
    }

    function Shaken(now: int): Store {
      this.(cookie := Some(nextCookie), nextCookie := nextCookie + 1, tokens := map[]).Minted(TOKEN_BATCH, now)
    }

    function AllExpired(): Store {
      this.(tokens := map t | t in tokens :: tokens[t].(expired := true))
    }

    function Invalidated(): Store { this.(cookie := None, tokens := map[]) }
  }

  lemma {:induction false} MintedKnows(s: Store, n: nat, now: int)
    requires s.Valid()
    ensures var m := s.Minted(n, now);
            && m == s.(tokens := m.tokens, nextToken := s.nextToken + n) && m.Valid()
            && forall t: Token :: (t in m.tokens <==> t in s.tokens || s.nextToken <= t < s.nextToken + n)
                                 && (t in m.tokens ==> m.tokens[t] == if t in s.tokens then s.tokens[t] else Entry(now, false, false))
  {
    if n > 0 {
      MintedKnows(s, n - 1, now);
    }
  }

  /** After a handshake the new cookie is valid, every token of the batch can be spent, and
      no earlier token can. */
  lemma ShakenServes(s: Store, now: int)
    requires s.Valid()
    ensures s.Shaken(now).Valid() && s.Shaken(now).SessionValid(s.nextCookie)
    ensures forall t :: t in s.Batch(TOKEN_BATCH) ==> s.Shaken(now).Consumable(t, now)
    ensures forall t: Token, later: int :: t < s.nextToken ==> !s.Shaken(now).Consumable(t, later)
  {
    var z := s.Shaken(now);
    MintedKnows(s.(cookie := Some(s.nextCookie), nextCookie := s.nextCookie + 1, tokens := map[]), TOKEN_BATCH, now);
    forall t | t in s.Batch(TOKEN_BATCH) ensures z.Consumable(t, now) {
      var i :| 0 <= i < TOKEN_BATCH && s.Batch(TOKEN_BATCH)[i] == t;
      assert s.nextToken <= t < s.nextToken + TOKEN_BATCH;
    }
  }

  /** A token is good once. */
  lemma ConsumedIsSpent(s: Store, t: Token, now: int, later: int)
    requires s.Valid()
    ensures s.Consumed(t, now).Valid()
    ensures !s.Consumed(t, now).Consumable(t, later) || (later < now && !s.Consumable(t, now))
    ensures forall u :: u != t ==> (s.Consumed(t, now).Consumable(u, later) <==> s.Consumable(u, later))
  {
  }

  // ---- what the history of a table says ----

  datatype StoreOp = Minting(at: int) | Asked(t: Token, at: int) | Aged | Dropped

  function Next(s: Store, op: StoreOp): Store {
    match op
    case Minting(at) => s.Shaken(at)
    case Asked(t, at) => s.Consumed(t, at)
    case Aged => s.AllExpired()
    case Dropped => s.Invalidated()
  }

  function After(ttl: int, ops: seq<StoreOp>): Store {
    if ops == [] then Store(ttl, None, map[], 0, 0) else Next(After(ttl, ops[..|ops| - 1]), ops[|ops| - 1])
  }

  function Shakes(ops: seq<StoreOp>): nat {
    if ops == [] then 0 else Shakes(ops[..|ops| - 1]) + if ops[|ops| - 1].Minting? then 1 else 0
  }

  /** The k-th token of the n-th handshake, thirty to a handshake, is still good: that one was
      the last, no more than ttl ago, and since then the token was not asked for, nothing aged
      and the session was not dropped. */
  predicate StillGood(ttl: int, ops: seq<StoreOp>, t: Token, now: int) {
    && ops != []
    && var before, op := ops[..|ops| - 1], ops[|ops| - 1];
       if op.Minting? then 30 * Shakes(before) <= t < 30 * Shakes(before) + 30 && now - op.at <= ttl
       else op.Asked? && op.t != t && StillGood(ttl, before, t, now)
  }

  function LiveCookie(ops: seq<StoreOp>): Option<Cookie> {
    if ops == [] || ops[|ops| - 1].Dropped? then None
    else if ops[|ops| - 1].Minting? then Some(Shakes(ops[..|ops| - 1]))
    else LiveCookie(ops[..|ops| - 1])
  }

  lemma MintedGood(s: Store, at: int, t: Token, now: int)
    requires s.Valid()
    ensures var z := s.Shaken(at);
            && z.Valid() && z.cookie == Some(s.nextCookie) && z.nextCookie == s.nextCookie + 1 && z.nextToken == s.nextToken + 30 && z.ttl == s.ttl
            && (z.Consumable(t, now) <==> s.nextToken <= t < s.nextToken + 30 && now - at <= s.ttl)
  {
    MintedKnows(s.(cookie := Some(s.nextCookie), nextCookie := s.nextCookie + 1, tokens := map[]), TOKEN_BATCH, at);
  }

  /** After any history the table takes a token if and only if it is still good, and the cookie
      it knows is the last handshake's, unless the session was dropped since. */
  lemma {:induction false} HistoryDecides(ttl: int, ops: seq<StoreOp>, t: Token, now: int)
    requires ttl > 0 && forall i :: 0 <= i < |ops| && ops[i].Asked? ==> ops[i].at <= now
    ensures var s := After(ttl, ops);
            && s.Valid() && s.ttl == ttl && s.nextToken == 30 * Shakes(ops) && s.nextCookie == Shakes(ops)
            && s.cookie == LiveCookie(ops)
            && (s.Consumable(t, now) <==> StillGood(ttl, ops, t, now))
  {
    hide Store.Shaken;
    if ops != [] {
      var before, op := ops[..|ops| - 1], ops[|ops| - 1];
      var s := After(ttl, before);
      HistoryDecides(ttl, before, t, now);
      if op.Minting? {
        MintedGood(s, op.at, t, now);
      } else if op.Asked? {
        ConsumedIsSpent(s, op.t, op.at, now);
      }
    }
  }

  class TokenStore {
    var store: Store

    constructor (ttl: int)
      requires ttl > 0
      ensures store == Store(ttl, None, map[], 0, 0)
    {
      store := Store(ttl, None, map[], 0, 0);
    }

    method Mint(n: nat, now: int) returns (out: seq<Token>)
      requires store.Valid()
      modifies this
      ensures store == old(store).Minted(n, now) && out == old(store).Batch(n) && store.Valid()
    {
      out := [];
      ghost var s0 := store;
      var i := 0;
      while i < n
        invariant 0 <= i <= n
        invariant out == s0.Batch(n)[..i]
        invariant store == s0.Minted(i, now) && store.nextToken == s0.nextToken + i && store.Valid()
      {
        var t := store.nextToken;
        store := store.(tokens := store.tokens[t := Entry(now, false, false)], nextToken := t + 1);
        out := out + [t];
        i := i + 1;
      }
    }

    method Handshake(now: int) returns (c: Cookie, ts: seq<Token>)
      requires store.Valid()
      modifies this
      ensures store == old(store).Shaken(now) && store.Valid()
      ensures c == old(store).nextCookie && ts == old(store).Batch(TOKEN_BATCH)
    {
      c := store.nextCookie;
      store := store.(cookie := Some(c), nextCookie := c + 1, tokens := map[]);
      ts := Mint(TOKEN_BATCH, now);
    }

    method Consume(t: Token, now: int) returns (ok: bool)
      requires store.Valid()
      modifies this
      ensures ok == old(store).Consumable(t, now) && store == old(store).Consumed(t, now) && store.Valid()
    {
      if t !in store.tokens || store.tokens[t].used || store.tokens[t].expired {
        return false;
      }
      var e := store.tokens[t];
      if now - e.issued > store.ttl {
        store := store.(tokens := store.tokens[t := e.(expired := true)]);
        return false;
      }
      store := store.(tokens := store.tokens[t := e.(used := true)]);
      ok := true;
    }

    method ExpireAll()
      requires store.Valid()
      modifies this
      ensures store == old(store).AllExpired() && store.Valid()
    {
      var left := store.tokens.Keys;
      ghost var all := store.tokens;
      while left != {}
        invariant left <= all.Keys == store.tokens.Keys
        invariant store == old(store).(tokens := store.tokens)
        invariant forall t :: t in all ==> store.tokens[t] == if t in left then all[t] else all[t].(expired := true)
        decreases |left|
      {
        var t :| t in left;
        store := store.(tokens := store.tokens[t := store.tokens[t].(expired := true)]);
        left := left - {t};
      }
      assert store.tokens == old(store).AllExpired().tokens;
    }

    method InvalidateSession()
      requires store.Valid()
      modifies this
      ensures store == old(store).Invalidated() && store.Valid()
    {
      store := store.(cookie := None, tokens := map[]);
    }
  }

  // ---- the device ----

  /** What a request body does when it is executed: perhaps a reboot, and some answer. */
  datatype Body = Body(reboot: bool, answer: int)

  /** TokenError stands for codes 125001 to 125003, the only ones the client retries. */
  datatype Reply = TokenError | NoRights | Answer(code: int)

  datatype Request = Request(post: bool, cookie: Cookie, token: Token, body: Body)

  datatype Dev = Dev(store: Store, login: bool)

  datatype Served = Served(dev: Dev, reply: Reply, executed: bool)

  /** ServeHTTP on anything but a handshake: session, then token, then login, then the body. */
  function Serve(d: Dev, r: Request, now: int): Served {
    if !d.store.SessionValid(r.cookie) then Served(d, TokenError, false)
    else if !r.post then Served(d, Answer(r.body.answer), false)
    else
      var spent := d.(store := d.store.Consumed(r.token, now));
      if !d.store.Consumable(r.token, now) then Served(spent, TokenError, false)
      else if d.login then Served(spent, NoRights, false)
      else Served(if r.body.reboot then spent.(store := spent.store.Invalidated()) else spent, Answer(r.body.answer), true)
  }

  /** A body is executed only on a live session with a token that was never spent before,
      which it spends, and never when the reply is one the client retries. */
  lemma ExecutedOnce(d: Dev, r: Request, now: int)
    requires d.store.Valid()
    ensures var s := Serve(d, r, now);
            && s.dev.store.Valid()
            && (s.executed ==> r.post && !s.reply.TokenError? && d.store.SessionValid(r.cookie) && d.store.Consumable(r.token, now))
            && (s.executed ==> forall later: int :: !s.dev.store.Consumable(r.token, later))
            && (s.executed <==> d.store.cookie == Some(r.cookie) && r.post && d.store.Consumable(r.token, now) && !d.login)
            && (s.reply.TokenError? <==> d.store.cookie != Some(r.cookie) || (r.post && !d.store.Consumable(r.token, now)))
            && (!s.reply.TokenError? ==> s.reply == if r.post && d.login then NoRights else Answer(r.body.answer))
            && s.dev.login == d.login
            && s.dev.store.cookie == (if s.executed && r.body.reboot then None else d.store.cookie)
            && (forall u: Token, later: int :: u != r.token && !(s.executed && r.body.reboot) ==>
                  (s.dev.store.Consumable(u, later) <==> d.store.Consumable(u, later)))
  {
  }

  class SimDevice {
    const tok: TokenStore
    var now: int
    var login: bool
    /** Every body executed, in order. */
    var bodies: seq<Body>

    constructor (ttl: int)
      requires ttl > 0
      ensures fresh(tok) && tok.store == Store(ttl, None, map[], 0, 0) && bodies == []
    {
      tok := new TokenStore(ttl);
      now, login, bodies := 0, false, [];
    }

    function Value(): Dev
      reads this, tok
    {
      Dev(tok.store, login)
    }

    method ServeHTTP(r: Request) returns (reply: Reply)
      requires tok.store.Valid()
      modifies tok, this`bodies
      ensures tok.store.Valid()
      ensures Value() == Serve(old(Value()), r, now).dev && reply == Serve(old(Value()), r, now).reply
      ensures bodies == old(bodies) + if Serve(old(Value()), r, now).executed then [r.body] else []
    {
      if tok.store.cookie != Some(r.cookie) {
        return TokenError;
      }
      if r.post {
        var ok := tok.Consume(r.token, now);
        if !ok {
          return TokenError;
        }
        if login {
          return NoRights;
        }
        bodies := bodies + [r.body];
        if r.body.reboot {
          tok.InvalidateSession();
        }
      }
      reply := Answer(r.body.answer);
    }
  }
}
