/** One member's inbox: message files that move between four directories, claim
    tokens, and a bound on how often a message is delivered. */
module Mailbox {
  import opened Wrappers

  /** File names are numbered in the order in which they sort. */
  type Name = nat
  type Token = nat

  const CLAIM_TOKEN_TTL_MS: int := 600000

  datatype Message = Message(attempt: nat, token: Option<Token>, expires: Option<int>)

  type Dir = map<Name, Message>

  /** The four directories, each with the files in it. */
  datatype Inbox = Inbox(inNew: Dir, processing: Dir, cur: Dir, dead: Dir)

  const EMPTY := Inbox(map[], map[], map[], map[])

  datatype Event =
    | Deliver(name: Name)
    | Claim(name: Name, token: Token, now: int)
    | AckName(name: Name)
    | AckToken(token: Token, now: int)
    | Sweep(name: Name)              // housekeeping meets one stale file

  function Claimed(m: Message, token: Token, now: int): Message {
    m.(token := Some(token), expires := Some(now + CLAIM_TOKEN_TTL_MS))
  }

  function Requeued(m: Message): Message {
    Message(m.attempt + 1, None, None)
  }

  function AfterDeliver(b: Inbox, name: Name): Inbox {
    b.(inNew := b.inNew[name := Message(1, None, None)])
  }

  function AfterClaim(b: Inbox, name: Name, token: Token, now: int): Inbox {
    if name !in b.inNew then b
    else b.(inNew := b.inNew - {name}, processing := b.processing[name := Claimed(b.inNew[name], token, now)])
  }

  function AfterAck(b: Inbox, name: Name): Inbox {
    if name !in b.processing then b
    else b.(processing := b.processing - {name}, cur := b.cur[name := b.processing[name]])
  }

  predicate Bears(b: Inbox, name: Name, token: Token) {
    name in b.processing && b.processing[name].token == Some(token)
  }

  predicate Expired(m: Message, now: int) {
    m.expires.Some? && now > m.expires.value
  }

  /** A stale file goes back to new/ with one more attempt, or to dead/. */
  function AfterSweep(b: Inbox, maxAttempts: int, name: Name): Inbox {
    if name !in b.processing then b
    else
      var m := b.processing[name];
      var rest := b.processing - {name};
      if m.attempt + 1 > maxAttempts then b.(processing := rest, dead := b.dead[name := m])
      else b.(processing := rest, inNew := b.inNew[name := Requeued(m)])
  }

  // ------------------------------------------------------------------ histories

  /** What has happened to the messages: how often each was claimed and
      acknowledged, and for which delivery and until when every token was minted. */
  datatype Log = Log(claims: map<Name, nat>, acks: map<Name, nat>, minted: map<Token, Mint>)

  datatype Mint = Mint(name: Name, attempt: nat, expires: int)

  const NO_LOG := Log(map[], map[], map[])

  function Count(m: map<Name, nat>, n: Name): nat {
    if n in m then m[n] else 0
  }

  datatype World = World(box: Inbox, log: Log)

  predicate Known(b: Inbox, n: Name) {
    n in b.inNew || n in b.processing || n in b.cur || n in b.dead
  }

  /** Names and tokens are fresh UUIDs. */
  predicate Allowed(w: World, e: Event) {
    match e
    case Deliver(n) => !Known(w.box, n)
    case Claim(_, t, _) => t !in w.log.minted
    case _ => true
  }

  function LogClaim(w: World, name: Name, token: Token, now: int): Log
    requires name in w.box.inNew
  {
    Log(w.log.claims[name := Count(w.log.claims, name) + 1], w.log.acks,
        w.log.minted[token := Mint(name, w.box.inNew[name].attempt, now + CLAIM_TOKEN_TTL_MS)])
  }

  function LogAck(w: World, name: Name): Log {
    w.log.(acks := w.log.acks[name := Count(w.log.acks, name) + 1])
  }

  ghost predicate Next(w: World, maxAttempts: int, e: Event, w': World) {
    match e
    case Deliver(n) => w' == World(AfterDeliver(w.box, n), w.log)
    case Claim(n, t, now) =>
      w' == if n in w.box.inNew then World(AfterClaim(w.box, n, t, now), LogClaim(w, n, t, now)) else w
    case AckName(n) =>
      w' == if n in w.box.processing then World(AfterAck(w.box, n), LogAck(w, n)) else w
    case AckToken(t, now) =>
      || (exists n :: Bears(w.box, n, t) && !Expired(w.box.processing[n], now) &&
                      w' == World(AfterAck(w.box, n), LogAck(w, n)))
      || (w' == w && forall n :: Bears(w.box, n, t) ==>
            exists n' :: Bears(w.box, n', t) && Expired(w.box.processing[n'], now))
    case Sweep(n) => w' == w.(box := AfterSweep(w.box, maxAttempts, n))
  }

  datatype Run = Run(worlds: seq<World>, events: seq<Event>) {
    ghost predicate StepAt(maxAttempts: int, i: nat) {
      i < |events| && i + 1 < |worlds| ==>
        Allowed(worlds[i], events[i]) && Next(worlds[i], maxAttempts, events[i], worlds[i + 1])
    }

    ghost predicate Of(maxAttempts: int) {
      && |worlds| == |events| + 1
      && worlds[0] == World(EMPTY, NO_LOG)
      && forall i: nat {:trigger StepAt(maxAttempts, i)} :: StepAt(maxAttempts, i)
    }
  }

  // -------------------------------------------------------------- the invariant

  function Limit(maxAttempts: int): int {
    if maxAttempts > 1 then maxAttempts else 1
  }

  predicate InOne(b: Inbox, n: Name) {
    && !(n in b.inNew && (n in b.processing || n in b.cur || n in b.dead))
    && !(n in b.processing && (n in b.cur || n in b.dead))
    && !(n in b.cur && n in b.dead)
  }

  function At(b: Inbox, n: Name): Message
    requires Known(b, n)
  {
    if n in b.inNew then b.inNew[n] else if n in b.processing then b.processing[n]
    else if n in b.cur then b.cur[n] else b.dead[n]
  }

  /** What the token of a claimed message was minted for. */
  function MintOf(m: Message, n: Name): Option<Mint> {
    if m.expires.Some? then Some(Mint(n, m.attempt, m.expires.value)) else None
  }

  /** A message waiting for its k-th delivery has been claimed k - 1 times, any other
      k times; it was acknowledged once exactly when it lies in cur/; and a token in
      processing/ was minted for this message and this delivery. */
  ghost predicate MessageOk(w: World, maxAttempts: int, n: Name) {
    && InOne(w.box, n)
    && (if !Known(w.box, n) then Count(w.log.claims, n) == 0
        else
          && 1 <= At(w.box, n).attempt <= Limit(maxAttempts)
          && Count(w.log.claims, n) == At(w.box, n).attempt - (if n in w.box.inNew then 1 else 0))
    && Count(w.log.acks, n) == (if n in w.box.cur then 1 else 0)
    && (n in w.box.dead ==> w.box.dead[n].attempt == Limit(maxAttempts))
    && (n in w.box.inNew ==> w.box.inNew[n].token == None)
    && (n in w.box.processing ==>
          && w.box.processing[n].token.Some?
          && w.box.processing[n].token.value in w.log.minted
          && MintOf(w.box.processing[n], n) == Some(w.log.minted[w.box.processing[n].token.value]))
  }

  ghost predicate Inv(w: World, maxAttempts: int) {
    forall n {:trigger MessageOk(w, maxAttempts, n)} :: MessageOk(w, maxAttempts, n)
  }

  lemma NextKeepsMessage(w: World, maxAttempts: int, e: Event, w': World, n: Name)
    requires Inv(w, maxAttempts) && Allowed(w, e) && Next(w, maxAttempts, e, w')
    ensures MessageOk(w', maxAttempts, n)
  {
    assert MessageOk(w, maxAttempts, n);
  }

  lemma NextKeepsInv(w: World, maxAttempts: int, e: Event, w': World)
    requires Inv(w, maxAttempts) && Allowed(w, e) && Next(w, maxAttempts, e, w')
    ensures Inv(w', maxAttempts)
  {
    forall n ensures MessageOk(w', maxAttempts, n) {
      NextKeepsMessage(w, maxAttempts, e, w', n);
    }
  }

  lemma {:induction false} RunKeepsInv(r: Run, maxAttempts: int, i: nat)
    requires r.Of(maxAttempts) && i < |r.worlds|
    ensures Inv(r.worlds[i], maxAttempts)
  {
    if i == 0 {
      forall n ensures MessageOk(r.worlds[0], maxAttempts, n) {}
    } else {
      RunKeepsInv(r, maxAttempts, i - 1);
      assert r.StepAt(maxAttempts, i - 1);
      NextKeepsInv(r.worlds[i - 1], maxAttempts, r.events[i - 1], r.worlds[i]);
    }
  }

  /** Over every run: each delivered file is in exactly one directory, was claimed at
      most as often as allowed and acknowledged at most once; and a message is given up
      only when it was claimed as often as allowed. */
  lemma LifecycleIsBounded(r: Run, maxAttempts: int, i: nat, n: Name)
    requires r.Of(maxAttempts) && i < |r.worlds|
    ensures InOne(r.worlds[i].box, n)
    ensures Count(r.worlds[i].log.claims, n) <= Limit(maxAttempts)
    ensures Count(r.worlds[i].log.acks, n) <= 1
    ensures n in r.worlds[i].box.dead ==> Count(r.worlds[i].log.acks, n) == 0
    ensures n in r.worlds[i].box.dead ==> Count(r.worlds[i].log.claims, n) == Limit(maxAttempts)
  {
    RunKeepsInv(r, maxAttempts, i);
    assert MessageOk(r.worlds[i], maxAttempts, n);
  }

  lemma NextKeepsKnown(w: World, maxAttempts: int, e: Event, w': World, n: Name)
    requires Inv(w, maxAttempts) && Allowed(w, e) && Next(w, maxAttempts, e, w')
    ensures Known(w.box, n) ==> Known(w'.box, n)
    ensures n in w.box.cur ==> n in w'.box.cur
    ensures n in w.box.dead ==> n in w'.box.dead
  {
    assert MessageOk(w, maxAttempts, n);
  }

  /** Acknowledged or dead-lettered. */
  predicate Settled(b: Inbox, n: Name) {
    (n in b.cur || n in b.dead) && n !in b.inNew && n !in b.processing
  }

  predicate SameCounts(l: Log, l': Log, n: Name) {
    Count(l'.claims, n) == Count(l.claims, n) && Count(l'.acks, n) == Count(l.acks, n)
  }

  lemma FinalStep(w: World, maxAttempts: int, e: Event, w': World, n: Name)
    requires Inv(w, maxAttempts) && Allowed(w, e) && Next(w, maxAttempts, e, w')
    ensures Settled(w.box, n) ==> Settled(w'.box, n) && SameCounts(w.log, w'.log, n)
  {
    assert MessageOk(w, maxAttempts, n);
  }

  /** No message is lost. */
  lemma {:induction false} NothingIsLost(r: Run, maxAttempts: int, i: nat, j: nat, n: Name)
    requires r.Of(maxAttempts) && i <= j < |r.worlds| && Known(r.worlds[i].box, n)
    ensures Known(r.worlds[j].box, n)
  {
    if i < j {
      NothingIsLost(r, maxAttempts, i, j - 1, n);
      RunKeepsInv(r, maxAttempts, j - 1);
      assert r.StepAt(maxAttempts, j - 1);
      NextKeepsKnown(r.worlds[j - 1], maxAttempts, r.events[j - 1], r.worlds[j], n);
    }
  }

  /** All files but `n` are where they were, as they were. */
  ghost predicate OthersStay(b: Inbox, b': Inbox, n: Name) {
    forall x {:trigger Known(b, x)} {:trigger Known(b', x)} :: x != n ==>
      && (x in b'.inNew <==> x in b.inNew) && (x in b.inNew ==> b'.inNew[x] == b.inNew[x])
      && (x in b'.processing <==> x in b.processing) && (x in b.processing ==> b'.processing[x] == b.processing[x])
      && (x in b'.cur <==> x in b.cur) && (x in b.cur ==> b'.cur[x] == b.cur[x])
      && (x in b'.dead <==> x in b.dead) && (x in b.dead ==> b'.dead[x] == b.dead[x])
  }

  /** A message comes in once, for its first delivery. */
  lemma DeliveredExactly(w: World, maxAttempts: int, n: Name, w': World)
    requires Next(w, maxAttempts, Deliver(n), w')
    ensures n in w'.box.inNew && w'.box.inNew[n] == Message(1, None, None)
    ensures OthersStay(w.box, w'.box, n) && w'.log == w.log
  {
  }

  /** A waiting message, and no other, is claimed: it keeps its count of deliveries and
      bears the token for ten minutes. */
  lemma ClaimedExactly(w: World, maxAttempts: int, n: Name, t: Token, now: int, w': World)
    requires Inv(w, maxAttempts) && Next(w, maxAttempts, Claim(n, t, now), w')
    ensures n !in w.box.inNew ==> w' == w
    ensures n in w.box.inNew ==>
      && n !in w'.box.inNew && n in w'.box.processing
      && w'.box.processing[n] == Message(w.box.inNew[n].attempt, Some(t), Some(now + 600000))
      && OthersStay(w.box, w'.box, n) && Count(w'.log.claims, n) == Count(w.log.claims, n) + 1
  {
  }

  /** A message in processing, and no other, is acknowledged. */
  lemma AckedExactly(w: World, maxAttempts: int, n: Name, w': World)
    requires Inv(w, maxAttempts) && Next(w, maxAttempts, AckName(n), w')
    ensures n !in w.box.processing ==> w' == w
    ensures n in w.box.processing ==>
      && n !in w'.box.processing && n in w'.box.cur && w'.box.cur[n] == w.box.processing[n]
      && OthersStay(w.box, w'.box, n) && Count(w'.log.acks, n) == Count(w.log.acks, n) + 1
  {
  }

  /** A stale message waits for its next delivery, without a token, unless it was delivered
      as often as allowed: then it is given up. */
  lemma SweptExactly(w: World, maxAttempts: int, n: Name, w': World)
    requires Inv(w, maxAttempts) && Next(w, maxAttempts, Sweep(n), w')
    ensures n !in w.box.processing ==> w' == w
    ensures n in w.box.processing ==>
      var k := w.box.processing[n].attempt;
      && n !in w'.box.processing && w'.log == w.log && OthersStay(w.box, w'.box, n)
      && (k < maxAttempts ==> n in w'.box.inNew && w'.box.inNew[n] == Message(k + 1, None, None) && n !in w'.box.dead)
      && (k >= maxAttempts ==> n in w'.box.dead && n !in w'.box.inNew)
  {
    if n in w.box.processing {
      assert MessageOk(w, maxAttempts, n);
    }
  }

  /** Every operation comes to an end: there is a world after it. */
  lemma NextExists(w: World, maxAttempts: int, e: Event)
    ensures exists w' :: Next(w, maxAttempts, e, w')
  {
    match e
    case Deliver(n) => assert Next(w, maxAttempts, e, World(AfterDeliver(w.box, n), w.log));
    case Claim(n, t, now) =>
      if n in w.box.inNew {
        assert Next(w, maxAttempts, e, World(AfterClaim(w.box, n, t, now), LogClaim(w, n, t, now)));
      } else {
        assert Next(w, maxAttempts, e, w);
      }
    case AckName(n) =>
      if n in w.box.processing {
        assert Next(w, maxAttempts, e, World(AfterAck(w.box, n), LogAck(w, n)));
      } else {
        assert Next(w, maxAttempts, e, w);
      }
    case AckToken(t, now) =>
      if n :| Bears(w.box, n, t) && !Expired(w.box.processing[n], now) {
        assert Next(w, maxAttempts, e, World(AfterAck(w.box, n), LogAck(w, n)));
      } else {
        assert Next(w, maxAttempts, e, w);
      }
    case Sweep(n) => assert Next(w, maxAttempts, e, w.(box := AfterSweep(w.box, maxAttempts, n)));
  }

  /** What was acknowledged or dead-lettered is never claimed or acknowledged again. */
  lemma {:induction false} SettledIsFinal(r: Run, maxAttempts: int, i: nat, j: nat, n: Name)
    requires r.Of(maxAttempts) && i <= j < |r.worlds| && Settled(r.worlds[i].box, n)
    ensures Settled(r.worlds[j].box, n) && SameCounts(r.worlds[i].log, r.worlds[j].log, n)
  {
    if i < j {
      SettledIsFinal(r, maxAttempts, i, j - 1, n);
      RunKeepsInv(r, maxAttempts, j - 1);
      assert r.StepAt(maxAttempts, j - 1);
      FinalStep(r.worlds[j - 1], maxAttempts, r.events[j - 1], r.worlds[j], n);
    }
  }

  lemma {:induction false} MintedStays(r: Run, maxAttempts: int, i: nat, j: nat, t: Token)
    requires r.Of(maxAttempts) && i <= j < |r.worlds| && t in r.worlds[i].log.minted
    ensures t in r.worlds[j].log.minted && r.worlds[j].log.minted[t] == r.worlds[i].log.minted[t]
  {
    if i < j {
      MintedStays(r, maxAttempts, i, j - 1, t);
      assert r.StepAt(maxAttempts, j - 1);
    }
  }

  /** A token acknowledges only the delivery it was minted for, and only in time: when
      event `j` acknowledges `n` by token `t`, and `t` was minted by event `i`, then event
      `i` claimed `n` itself, the message has not been requeued since, and the token's
      life was not over. */
  lemma TokenAcksItsDelivery(r: Run, maxAttempts: int, i: nat, j: nat, n: Name, t: Token)
    requires r.Of(maxAttempts) && i < j < |r.events|
    requires r.events[i].Claim? && r.events[i].token == t && r.events[i].name in r.worlds[i].box.inNew
    requires r.events[j].AckToken? && r.events[j].token == t
    requires n in r.worlds[j].box.processing && n in r.worlds[j + 1].box.cur
    ensures r.events[i].name == n
    ensures r.worlds[i].box.inNew[n].attempt == r.worlds[j].box.processing[n].attempt
    ensures r.events[j].now <= r.events[i].now + 600000
  {
    assert r.StepAt(maxAttempts, i);
    MintedStays(r, maxAttempts, i + 1, j, t);
    RunKeepsInv(r, maxAttempts, j);
    assert MessageOk(r.worlds[j], maxAttempts, n);
    assert r.StepAt(maxAttempts, j);
  }

  /** And in time it does: as long as the delivery that event `i` claimed has not been
      acknowledged or requeued, its token acknowledges it exactly until ten minutes after
      the claim, and is of no use later. */
  lemma TokenIsGood(r: Run, maxAttempts: int, i: nat, j: nat, n: Name, t: Token)
    requires r.Of(maxAttempts) && i < j < |r.events|
    requires r.events[i].Claim? && r.events[i].token == t
    requires r.events[i].name == n && n in r.worlds[i].box.inNew
    requires r.events[j].AckToken? && r.events[j].token == t
    requires n in r.worlds[j].box.processing && r.worlds[j].box.processing[n].token == Some(t)
    ensures n in r.worlds[j + 1].box.cur <==> r.events[j].now <= r.events[i].now + 600000
    ensures n in r.worlds[j + 1].box.processing <==> r.events[j].now > r.events[i].now + 600000
  {
    assert r.StepAt(maxAttempts, i);
    MintedStays(r, maxAttempts, i + 1, j, t);
    RunKeepsInv(r, maxAttempts, j);
    assert MessageOk(r.worlds[j], maxAttempts, n);
    assert r.StepAt(maxAttempts, j);
    forall x | Bears(r.worlds[j].box, x, t) ensures x == n {
      assert MessageOk(r.worlds[j], maxAttempts, x);
    }
  }

  /** With a bound below one the first claim already exceeds it: the bound on claims is
      `maxDeliveryAttempts` exactly when that is at least one. */
  lemma BoundNeedsOneAttempt(maxAttempts: int)
    ensures maxAttempts >= 1 <==>
      forall r: Run, i: nat, n: Name :: r.Of(maxAttempts) && i < |r.worlds| ==>
        Count(r.worlds[i].log.claims, n) <= maxAttempts
  {
    if maxAttempts >= 1 {
      forall r: Run, i: nat, n: Name | r.Of(maxAttempts) && i < |r.worlds|
        ensures Count(r.worlds[i].log.claims, n) <= maxAttempts
      {
        LifecycleIsBounded(r, maxAttempts, i, n);
      }
    } else {
      var r := FirstClaim();
      assert r.Of(maxAttempts);
      assert Count(r.worlds[2].log.claims, 1) == 1;
    }
  }

  function FirstClaim(): Run {
    var w0 := World(EMPTY, NO_LOG);
    var w1 := World(AfterDeliver(EMPTY, 1), NO_LOG);
    var w2 := World(AfterClaim(w1.box, 1, 5, 0), LogClaim(w1, 1, 5, 0));
    Run([w0, w1, w2], [Deliver(1), Claim(1, 5, 0)])
  }
}
