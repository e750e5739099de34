/** The mailbox operations as the code runs them, over directories it renames files
    between; each is proved to be the event of module Mailbox it stands for. */
module InboxFiles {
  import opened Wrappers
  import opened Mailbox

  class InboxDirectory {
    var inNew: Dir
    var processing: Dir
    var cur: Dir
    var dead: Dir
    const maxAttempts: int
    ghost var log: Log

    ghost function Box(): Inbox
      reads this
    {
      Inbox(inNew, processing, cur, dead)
    }

    ghost function Now(): World
      reads this
    {
      World(Box(), log)
    }

    ghost predicate Valid()
      reads this
    {
      Inv(Now(), maxAttempts)
    }

    constructor (maxAttempts: int)
      ensures Valid() && Now() == World(EMPTY, NO_LOG) && this.maxAttempts == maxAttempts
    {
      inNew, processing, cur, dead := map[], map[], map[], map[];
      this.maxAttempts := maxAttempts;
      log := NO_LOG;
      new;
      forall n ensures MessageOk(Now(), maxAttempts, n) {}
    }

    /** Too large a body throws before anything is written. */
    method DeliverMessage(name: Name, fits: bool) returns (ok: bool)
      requires Valid() && !Known(Box(), name)
      modifies this
      ensures Valid() && ok == fits
      ensures if fits then Next(old(Now()), maxAttempts, Deliver(name), Now()) else Now() == old(Now())
    {
      if !fits {
        return false;
      }
      NextKeepsInv(Now(), maxAttempts, Deliver(name), World(AfterDeliver(Box(), name), log));
      inNew := inNew[name := Message(1, None, None)];
      return true;
    }

    method ClaimMessage(name: Name, token: Token, now: int) returns (ok: bool)
      requires Valid() && token !in log.minted
      modifies this
      ensures Valid() && (ok <==> name in old(inNew))
      ensures Next(old(Now()), maxAttempts, Claim(name, token, now), Now())
      ensures log == if ok then LogClaim(old(Now()), name, token, now) else old(log)
    {
      ghost var before := Now();
      if name !in inNew {
        return false;
      }
      var m := inNew[name];
      log := LogClaim(before, name, token, now);
      inNew := inNew - {name};
      processing := processing[name := m];
      processing := processing[name := Claimed(m, token, now)];
      assert Box() == AfterClaim(before.box, name, token, now);
      NextKeepsInv(before, maxAttempts, Claim(name, token, now), Now());
      return true;
    }

    /** `ackMessageFile`: from processing/ to cur/. */
    method AckMessage(name: Name) returns (ok: bool)
      requires Valid()
      modifies this
      ensures Valid() && (ok <==> name in old(processing))
      ensures Next(old(Now()), maxAttempts, AckName(name), Now())
    {
      ghost var before := Now();
      if name !in processing {
        return false;
      }
      cur := cur[name := processing[name]];
      processing := processing - {name};
      log := LogAck(before, name);
      assert Box() == AfterAck(before.box, name);
      NextKeepsInv(before, maxAttempts, AckName(name), Now());
      return true;
    }

    /** The scan of processing/ stops at the first file that bears the token; no two
        files do, so it is the only one. */
    method AckMessageByClaimToken(token: Token, now: int) returns (ok: bool)
      requires Valid()
      modifies this
      ensures Valid()
      ensures Next(old(Now()), maxAttempts, AckToken(token, now), Now())
      ensures ok <==> exists n :: Bears(old(Box()), n, token) && !Expired(old(processing)[n], now)
      ensures ok <==> Box() != old(Box())
    {
      ghost var before := Now();
      var rest := processing.Keys;
      while rest != {}
        invariant Now() == before && rest <= processing.Keys
        invariant forall n :: Bears(before.box, n, token) ==> n in rest
        decreases rest
      {
        var n :| n in rest;
        if processing[n].token == Some(token) {
          assert Bears(before.box, n, token);
          BearerIsUnique(before, maxAttempts, token, n);
          if Expired(processing[n], now) {
            return false;
          }
          var acked := AckMessage(n);
          assert n !in processing;
          return true;
        }
        rest := rest - {n};
      }
      return false;
    }

    // --------------------------------------------------------------- receiving

    method SmallestOf(names: set<Name>) returns (n: Name)
      requires names != {}
      ensures n in names && forall x :: x in names ==> n <= x
    {
      n :| n in names;
      var rest := names - {n};
      while rest != {}
        invariant n in names && rest <= names
        invariant forall x :: x in names && x !in rest ==> n <= x
        decreases rest
      {
        var x :| x in rest;
        rest := rest - {x};
        if x < n {
          n := x;
        }
      }
    }

    /** The sorted listing of new/, cut to the first `max` entries when that is positive. */
    method SortedEntries(max: Option<int>) returns (entries: seq<Name>)
      ensures Ascending(entries)
      ensures forall n :: n in entries ==> n in inNew
      ensures forall n, x :: n in inNew && n !in entries && x in entries ==> x < n
      ensures max.Some? && max.value > 0 ==> |entries| <= max.value
      ensures (max.Some? && max.value > 0 && |entries| == max.value) || forall n :: n in inNew ==> n in entries
    {
      entries := [];
      var rest := inNew.Keys;
      while rest != {} && !(max.Some? && max.value > 0 && |entries| == max.value)
        invariant rest <= inNew.Keys && Ascending(entries)
        invariant forall n :: n in inNew <==> n in rest || n in entries
        invariant forall n, x :: n in rest && x in entries ==> x < n
        invariant max.Some? && max.value > 0 ==> |entries| <= max.value
        decreases rest
      {
        var n := SmallestOf(rest);
        rest := rest - {n};
        forall i | 0 <= i < |entries| ensures entries[i] < n {
          assert entries[i] in entries;
        }
        entries := entries + [n];
      }
    }

    /** Receiving with or without claim. The tokens are the fresh ones from `firstToken` on. */
    method RecvMessages(max: Option<int>, claim: bool, firstToken: Token, now: int) returns (names: seq<Name>)
      requires Valid() && forall t :: t in log.minted ==> t < firstToken
      modifies this
      ensures Valid()
      ensures Ascending(names) && forall n :: n in names ==> n in old(inNew)
      ensures forall n, x :: n in old(inNew) && n !in names && x in names ==> x < n
      ensures max.Some? && max.value > 0 ==> |names| <= max.value
      ensures (max.Some? && max.value > 0 && |names| == max.value) || forall n :: n in old(inNew) ==> n in names
      ensures !claim ==> Now() == old(Now())
      ensures claim ==> Box() == ClaimedFirst(old(Box()), names, |names|, firstToken, now)
    {
      ghost var before := Box();
      var entries := SortedEntries(max);
      names := entries;
      if !claim {
        return;
      }
      for i := 0 to |entries|
        invariant ClaimedTo(before, entries, i, firstToken, now)
      {
        ClaimEntry(before, entries, i, firstToken, now);
      }
    }

    /** Where receiving with claim stands after the first `i` entries. */
    ghost predicate ClaimedTo(before: Inbox, entries: seq<Name>, i: nat, firstToken: Token, now: int)
      requires i <= |entries|
      reads this
    {
      && Valid()
      && Box() == ClaimedFirst(before, entries, i, firstToken, now)
      && forall t :: t in log.minted ==> t < firstToken + i
    }

    method ClaimEntry(ghost before: Inbox, entries: seq<Name>, i: nat, firstToken: Token, now: int)
      requires i < |entries| && Ascending(entries) && entries[i] in before.inNew
      requires ClaimedTo(before, entries, i, firstToken, now)
      modifies this
      ensures ClaimedTo(before, entries, i + 1, firstToken, now)
    {
      StillNew(before, entries, i, firstToken, now);
      var ok := ClaimMessage(entries[i], firstToken + i, now);
    }

    // ------------------------------------------------------------- housekeeping

    /** One stale file: requeued with one more attempt, or dead-lettered. */
    method SweepFile(name: Name)
      requires Valid() && name in processing
      modifies this`inNew, this`processing, this`dead
      ensures Valid()
      ensures Next(old(Now()), maxAttempts, Sweep(name), Now())
    {
      ghost var before := Now();
      var m := processing[name];
      var attempt := m.attempt + 1;
      if attempt > maxAttempts {
        dead := dead[name := m];
        processing := processing - {name};
      } else {
        processing := processing[name := Message(attempt, None, None)];
        inNew := inNew[name := processing[name]];
        processing := processing - {name};
      }
      assert Box() == AfterSweep(before.box, maxAttempts, name);
      NextKeepsInv(before, maxAttempts, Sweep(name), Now());
    }

    /** The scan of processing/: every stale file is swept, no other is touched. */
    method HousekeepMailbox(stale: set<Name>) returns (requeued: nat, deadLettered: nat)
      requires Valid()
      modifies this
      ensures Valid() && log == old(log)
      ensures Box() == Swept(old(Box()), Stale(old(processing), stale), maxAttempts)
      ensures requeued + deadLettered == |Stale(old(processing), stale)|
      ensures deadLettered == |UsedUp(old(processing), Stale(old(processing), stale), maxAttempts)|
    {
      requeued, deadLettered := 0, 0;
      ghost var before := Box();
      var entries := Stale(processing, stale);
      var rest := entries;
      NothingSwept(before, maxAttempts);
      assert entries - rest == {};
      while rest != {}
        invariant Valid() && log == old(log)
        invariant rest <= entries && entries == Stale(before.processing, stale)
        invariant Box() == Swept(before, entries - rest, maxAttempts)
        invariant requeued + deadLettered == |entries| - |rest|
        invariant deadLettered == |UsedUp(before.processing, entries - rest, maxAttempts)|
        decreases rest
      {
        var n :| n in rest;
        UsedUpNext(before.processing, entries - rest, maxAttempts, n);
        SweptNext(before, entries - rest, maxAttempts, n);
        assert entries - (rest - {n}) == (entries - rest) + {n};
        var dies := processing[n].attempt + 1 > maxAttempts;
        SweepFile(n);
        if dies {
          deadLettered := deadLettered + 1;
        } else {
          requeued := requeued + 1;
        }
        rest := rest - {n};
      }
      assert entries - rest == entries;
    }
  }

  /** The inbox once the files `names` of processing/ have been swept: those used up are in
      dead/ as they were, the others in new/ with one more attempt; no other file differs. */
  function Swept(b: Inbox, names: set<Name>, maxAttempts: int): Inbox {
    Inbox(b.inNew + Reborn(b.processing, names, maxAttempts),
          b.processing - names,
          b.cur,
          b.dead + Dying(b.processing, names, maxAttempts))
  }

  function Reborn(d: Dir, names: set<Name>, maxAttempts: int): Dir {
    map n | n in d.Keys && n in names && n !in UsedUp(d, names, maxAttempts) :: Requeued(d[n])
  }

  function Dying(d: Dir, names: set<Name>, maxAttempts: int): Dir {
    map n | n in d.Keys && n in UsedUp(d, names, maxAttempts) :: d[n]
  }

  lemma NothingSwept(b: Inbox, maxAttempts: int)
    ensures Swept(b, {}, maxAttempts) == b && UsedUp(b.processing, {}, maxAttempts) == {}
  {
    var s := Swept(b, {}, maxAttempts);
    assert s.inNew == b.inNew && s.processing == b.processing && s.dead == b.dead;
  }

  lemma RebornNext(d: Dir, names: set<Name>, maxAttempts: int, n: Name)
    requires n in d && n !in names
    ensures Reborn(d, names + {n}, maxAttempts) ==
            if d[n].attempt + 1 > maxAttempts then Reborn(d, names, maxAttempts)
            else Reborn(d, names, maxAttempts)[n := Requeued(d[n])]
  {
  }

  lemma DyingNext(d: Dir, names: set<Name>, maxAttempts: int, n: Name)
    requires n in d && n !in names
    ensures Dying(d, names + {n}, maxAttempts) ==
            if d[n].attempt + 1 > maxAttempts then Dying(d, names, maxAttempts)[n := d[n]]
            else Dying(d, names, maxAttempts)
  {
  }

  lemma AddedLater(a: Dir, b: Dir, n: Name, m: Message)
    ensures a + b[n := m] == (a + b)[n := m]
  {
  }

  lemma SweptNext(b: Inbox, names: set<Name>, maxAttempts: int, n: Name)
    requires n in b.processing && n !in names
    ensures n in Swept(b, names, maxAttempts).processing
    ensures Swept(b, names, maxAttempts).processing[n] == b.processing[n]
    ensures AfterSweep(Swept(b, names, maxAttempts), maxAttempts, n) == Swept(b, names + {n}, maxAttempts)
  {
    RebornNext(b.processing, names, maxAttempts, n);
    DyingNext(b.processing, names, maxAttempts, n);
    var m := b.processing[n];
    AddedLater(b.inNew, Reborn(b.processing, names, maxAttempts), n, Requeued(m));
    AddedLater(b.dead, Dying(b.processing, names, maxAttempts), n, m);
    assert b.processing - names - {n} == b.processing - (names + {n});
  }

  function Stale(d: Dir, stale: set<Name>): set<Name> {
    set n | n in d && n in stale
  }

  /** The messages of `names` that have been delivered as often as allowed. */
  function UsedUp(d: Dir, names: set<Name>, maxAttempts: int): set<Name> {
    set n | n in names && n in d && d[n].attempt + 1 > maxAttempts
  }

  lemma UsedUpNext(d: Dir, names: set<Name>, maxAttempts: int, n: Name)
    requires n in d && n !in names
    ensures |UsedUp(d, names + {n}, maxAttempts)| ==
            |UsedUp(d, names, maxAttempts)| + if d[n].attempt + 1 > maxAttempts then 1 else 0
  {
    assert UsedUp(d, names + {n}, maxAttempts) ==
           UsedUp(d, names, maxAttempts) + if d[n].attempt + 1 > maxAttempts then {n} else {};
  }

  predicate Ascending(names: seq<Name>) {
    forall i, j :: 0 <= i < j < |names| ==> names[i] < names[j]
  }

  lemma BearerIsUnique(w: World, maxAttempts: int, token: Token, n: Name)
    requires Inv(w, maxAttempts) && Bears(w.box, n, token)
    ensures forall x :: Bears(w.box, x, token) ==> x == n
  {
    forall x | Bears(w.box, x, token) ensures x == n {
      assert MessageOk(w, maxAttempts, x) && MessageOk(w, maxAttempts, n);
    }
  }

  /** The inbox once the first `k` of `names` have been claimed. */
  ghost function ClaimedFirst(b: Inbox, names: seq<Name>, k: nat, firstToken: Token, now: int): Inbox
    requires k <= |names|
  {
    if k == 0 then b
    else AfterClaim(ClaimedFirst(b, names, k - 1, firstToken, now), names[k - 1], firstToken + k - 1, now)
  }

  lemma {:induction false} StillNew(b: Inbox, names: seq<Name>, k: nat, firstToken: Token, now: int)
    requires k <= |names| && Ascending(names)
    ensures forall n :: n in b.inNew && n !in names[..k] ==> n in ClaimedFirst(b, names, k, firstToken, now).inNew
    ensures k < |names| ==> names[k] !in names[..k]
  {
    if k > 0 {
      StillNew(b, names, k - 1, firstToken, now);
      assert names[..k] == names[..k - 1] + [names[k - 1]];
    }
  }
}
