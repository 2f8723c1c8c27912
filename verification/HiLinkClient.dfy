/** One caller and its retry loop against the device (internal/device/hilink/transport.go,
    do, ensureSession, attempt; session.go, handshake). */
module HiLinkClient {
  import opened Wrappers
  import opened HiLink

  predicate Distinct(ts: seq<Token>) { forall i, j :: 0 <= i < j < |ts| ==> ts[i] != ts[j] }

  /** The cookie is one the device handed out, and while both sides agree on it every pooled
      token is known to the device and unspent. */
  predicate Synced(sess: Sess, store: Store) {
    && store.Valid() && Distinct(sess.tokens)
    && (sess.cookie.Some? ==> sess.cookie.value < store.nextCookie)
    && (sess.cookie.Some? && sess.cookie == store.cookie ==>
          forall t :: t in sess.tokens ==> t in store.tokens && !store.tokens[t].used)
  }

  /** Nothing happened to the session: it is the device's, not used up, and no token ran out. */
  predicate Undisturbed(sess: Sess, store: Store, now: int) {
    && sess.Usable() && sess.cookie == store.cookie
    && forall t :: t in sess.tokens ==> store.Consumable(t, now)
  }

  /** Expiry of every token, a dropped session and another client's handshake keep both sides in step. */
  lemma DisturbedStaysSynced(sess: Sess, store: Store, now: int)
    requires Synced(sess, store)
    ensures !Undisturbed(sess, store.Shaken(now), now)
    ensures Synced(sess, store.AllExpired()) && Synced(sess, store.Invalidated())
    ensures Synced(sess, store.Shaken(now))
    ensures !Undisturbed(sess, store.Invalidated(), 0)
  {
    ShakenServes(store, now);
  }

  lemma ShakenSyncs(sess: Sess, store: Store, now: int)
    requires store.Valid()
    ensures var s := sess.Installed(Some(store.nextCookie), store.Batch(TOKEN_BATCH));
            Synced(s, store.Shaken(now)) && Undisturbed(s, store.Shaken(now), now)
  {
    ShakenServes(store, now);
  }

  /** Spending the head of the pool leaves the rest as good as it was. */
  lemma SpendKeepsSync(sess: Sess, d: Dev, r: Request, now: int)
    requires Synced(sess, d.store) && sess.Usable()
    requires r.cookie == sess.cookie.value && r.token == sess.tokens[0]
    ensures var s := if r.post then sess.Taken() else sess;
            var t := Serve(d, r, now).dev.store;
            && Synced(s, t)
            && (Undisturbed(sess, d.store, now) && t.cookie == d.store.cookie && s.tokens != [] ==> Undisturbed(s, t, now))
  {
    var s := if r.post then sess.Taken() else sess;
    forall t | t in s.tokens ensures t in sess.tokens && (r.post ==> t != r.token) {
      var i :| 0 <= i < |s.tokens| && s.tokens[i] == t;
      if r.post {
        assert s.tokens[i] == sess.tokens[i + 1];
      }
    }
  }

  class Client {
    const sess: Session
    const dev: SimDevice

    constructor (dev: SimDevice)
      ensures this.dev == dev && fresh(sess) && sess.Value() == NO_SESSION
    {
      this.dev := dev;
      sess := new Session();
    }

    method EnsureSession()
      requires Synced(sess.Value(), dev.tok.store)
      modifies sess, dev.tok
      ensures Synced(sess.Value(), dev.tok.store) && sess.Value().Usable()
      ensures if old(sess.Value()).Usable() then sess.Value() == old(sess.Value()) && dev.tok.store == old(dev.tok.store)
              else Undisturbed(sess.Value(), dev.tok.store, dev.now)
    {
      var have := sess.Snapshot();
      if have.Some? {
        return;
      }
      ShakenSyncs(sess.Value(), dev.tok.store, dev.now);
      var c, ts := dev.tok.Handshake(dev.now);
      sess.Install(Some(c), ts);
    }

    method Attempt(post: bool, body: Body) returns (reply: Reply)
      requires Synced(sess.Value(), dev.tok.store) && sess.Value().Usable()
      modifies sess, dev.tok, dev`bodies
      ensures Synced(sess.Value(), dev.tok.store)
      ensures reply.TokenError? ==> dev.bodies == old(dev.bodies) && !old(Undisturbed(sess.Value(), dev.tok.store, dev.now))
      ensures !reply.TokenError? ==>
                && reply == (if post && dev.login then NoRights else Answer(body.answer))
                && dev.bodies == old(dev.bodies) + if post && !dev.login then [body] else []
      ensures old(Undisturbed(sess.Value(), dev.tok.store, dev.now)) && !body.reboot && sess.tokens != [] ==>
                Undisturbed(sess.Value(), dev.tok.store, dev.now)
    {
      ghost var s0, d0 := sess.Value(), dev.Value();
      var have: Option<(Cookie, Token)>;
      if post {
        have := sess.Take();
      } else {
        have := sess.Snapshot();
      }
      var r := Request(post, have.value.0, have.value.1, body);
      SpendKeepsSync(s0, d0, r, dev.now);
      reply := dev.ServeHTTP(r);
      assert s0.tokens[0] in s0.tokens;
      sess.Absorb([]);
    }

    /** Whatever became of the device's session since the last call, the caller gets the
        device's own answer within two attempts and the body is executed exactly once. */
    method Do(post: bool, body: Body) returns (reply: Reply, attempts: nat)
      requires Synced(sess.Value(), dev.tok.store)
      modifies sess, dev.tok, dev`bodies
      ensures Synced(sess.Value(), dev.tok.store)
      ensures 1 <= attempts <= MAX_ATTEMPTS
      ensures reply == if post && dev.login then NoRights else Answer(body.answer)
      ensures dev.bodies == old(dev.bodies) + if post && !dev.login then [body] else []
      ensures old(Undisturbed(sess.Value(), dev.tok.store, dev.now)) ==> attempts == 1
      ensures old(Undisturbed(sess.Value(), dev.tok.store, dev.now)) && !body.reboot && sess.tokens != [] ==>
                Undisturbed(sess.Value(), dev.tok.store, dev.now)
      ensures !old(sess.Value()).Usable() ==> attempts == 1
    {
      hide Undisturbed, Synced, Sess.Usable;
      reply, attempts := TokenError, 0;
      while attempts < MAX_ATTEMPTS
        invariant 0 <= attempts <= MAX_ATTEMPTS
        invariant Synced(sess.Value(), dev.tok.store)
        invariant attempts == 0 ==> sess.Value() == old(sess.Value()) && dev.tok.store == old(dev.tok.store)
        invariant attempts >= 1 ==> !old(Undisturbed(sess.Value(), dev.tok.store, dev.now)) && old(sess.Value()).Usable()
        invariant attempts < MAX_ATTEMPTS
        invariant dev.bodies == old(dev.bodies)
      {
        if attempts > 0 {
          ResetSyncs(sess.Value(), dev.tok.store);
          sess.Reset();
        }
        ghost var mine := sess.Value().Usable();
        EnsureSession();
        ghost var good := Undisturbed(sess.Value(), dev.tok.store, dev.now);
        reply := Attempt(post, body);
        attempts := attempts + 1;
        if !reply.TokenError? {
          return;
        }
        assert !good && mine;
      }
    }
  }

  lemma ResetSyncs(sess: Sess, store: Store)
    requires Synced(sess, store)
    ensures Synced(NO_SESSION, store) && !NO_SESSION.Usable()
  {
  }

  // ---- any run ----

  /** A call of this client, or something that befalls the device between two calls. */
  datatype Event =
    | Call(post: bool, body: Body)
    | Pass(ms: nat)
    | ExpireAll
    | DropSession
    | OtherHandshake
    | Lock(login: bool)

  /** What the device itself has to say to every call, in order. */
  function OwnAnswers(events: seq<Event>, login: bool): seq<Reply> {
    if events == [] then []
    else match events[0]
         case Call(post, body) => [if post && login then NoRights else Answer(body.answer)] + OwnAnswers(events[1..], login)
         case Lock(on) => OwnAnswers(events[1..], on)
         case _ => OwnAnswers(events[1..], login)
  }

  /** The bodies of the posts it has no reason to refuse. */
  function OwnBodies(events: seq<Event>, login: bool): seq<Body> {
    if events == [] then []
    else match events[0]
         case Call(post, body) => (if post && !login then [body] else []) + OwnBodies(events[1..], login)
         case Lock(on) => OwnBodies(events[1..], on)
         case _ => OwnBodies(events[1..], login)
  }

  /** What happens to the device between two calls. */
  method Befall(dev: SimDevice, e: Event, ghost sess: Sess)
    requires !e.Call? && Synced(sess, dev.tok.store)
    modifies dev`now, dev`login, dev.tok
    ensures Synced(sess, dev.tok.store) && dev.login == if e.Lock? then e.login else old(dev.login)
  {
    DisturbedStaysSynced(sess, dev.tok.store, dev.now);
    match e
    case Pass(ms) => dev.now := dev.now + ms;
    case ExpireAll => dev.tok.ExpireAll();
    case DropSession => dev.tok.InvalidateSession();
    case OtherHandshake => var _, _ := dev.tok.Handshake(dev.now);
    case Lock(on) => dev.login := on;
  }

  /** Over any run of calls and disturbances every call ends in the device's own answer, and
      the bodies executed are those of the posts, each once and in order. */
  method Run(c: Client, events: seq<Event>) returns (replies: seq<Reply>)
    requires Synced(c.sess.Value(), c.dev.tok.store)
    modifies c.sess, c.dev.tok, c.dev
    ensures replies == OwnAnswers(events, old(c.dev.login))
    ensures c.dev.bodies == old(c.dev.bodies) + OwnBodies(events, old(c.dev.login))
    ensures Synced(c.sess.Value(), c.dev.tok.store)
  {
    hide Synced;
    replies := [];
    ghost var run: seq<Body> := [];
    var i := 0;
    assert events[0..] == events;
    while i < |events|
      invariant 0 <= i <= |events|
      invariant Synced(c.sess.Value(), c.dev.tok.store)
      invariant OwnAnswers(events, old(c.dev.login)) == replies + OwnAnswers(events[i..], c.dev.login)
      invariant c.dev.bodies == old(c.dev.bodies) + run
      invariant OwnBodies(events, old(c.dev.login)) == run + OwnBodies(events[i..], c.dev.login)
    {
      assert events[i..][0] == events[i] && events[i..][1..] == events[i + 1..];
      if events[i].Call? {
        ghost var was := c.dev.bodies;
        var reply, _ := c.Do(events[i].post, events[i].body);
        replies := replies + [reply];
        run := run + c.dev.bodies[|was|..];
      } else {
        Befall(c.dev, events[i], c.sess.Value());
      }
      i := i + 1;
    }
    assert events[i..] == [];
  }
}
