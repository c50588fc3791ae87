/** The memcached rate limiter: an integer leaky bucket per client, with a bound on what a client can be sent. */
module RateLimiter {
  import opened Common

  const SECONDS_30_DAYS: nat := 2592000

  /** Rate and debt limit, in the ranges that the option parser accepts: up to 1 GB per second and up to 3500 MB. */
  datatype Limits = Limits(rate: nat, maxdebt: nat) {
    predicate Valid() { 1 <= rate <= 0x4000_0000 && 1 <= maxdebt <= 3670016000 }
  }

  /** The cached state of a client. */
  datatype Entry = Entry(lastUpdate: int, bytesServed: nat)

  /** The same with the time from which the cache no longer returns it. */
  datatype Stored = Stored(entry: Entry, expiresAt: Option<int>)

  /** What the cache returns at a time. */
  function Live(s: Option<Stored>, now: int): Option<Entry> {
    if s.None? || (s.value.expiresAt.Some? && s.value.expiresAt.value <= now) then None else Some(s.value.entry)
  }

  function Earned(l: Limits, seconds: int): int { seconds * l.rate }

  /** Debt that is left of an entry. */
  function Remaining(l: Limits, e: Option<Entry>, now: int): nat {
    if e.None? then 0
    else
      var earned := Earned(l, now - e.value.lastUpdate);
      if earned < e.value.bytesServed then ToUint32(e.value.bytesServed - earned) else 0
  }

  /** Seconds after which a rejected client may come back, before conversion to the result type. */
  function RetryAfter(l: Limits, debt: nat): (w: nat)
    requires l.rate > 0 && debt >= l.maxdebt
    ensures w >= 1
  {
    (debt - l.maxdebt) / l.rate + 1
  }

  /** Conversion to a 32-bit `int`, by way of the unsigned type of the expression. */
  function ToInt32(n: nat): int {
    if ToUint32(n) < 0x8000_0000 then ToUint32(n) else ToUint32(n) - 0x1_0000_0000
  }

  function NextEntry(l: Limits, e: Option<Entry>, now: int, bytes: nat): Entry {
    if e.None? then Entry(now, bytes)
    else
      var earned := Earned(l, now - e.value.lastUpdate);
      if earned < e.value.bytesServed then Entry(now, ToUint32(e.value.bytesServed - earned + bytes))
      else Entry(now, bytes)
  }

  /** Seconds after which the entry is dropped; zero is no expiry. */
  function Expiration(l: Limits, bytes: nat): nat
    requires l.rate > 0
  {
    Min(SECONDS_30_DAYS, 2 * Max(l.maxdebt, bytes) / l.rate)
  }

  function Next(l: Limits, s: Option<Stored>, now: int, bytes: nat): Stored
    requires l.rate > 0
  {
    var expiration := Expiration(l, bytes);
    Stored(NextEntry(l, Live(s, now), now, bytes), if expiration == 0 then None else Some(now + expiration))
  }

  /**
   An update in plain arithmetic: what a live entry still owes is added to the response, in 32 bits; the entry is kept
   for twice the time in which the debt limit, or the response if that is larger, is earned, and for 30 days at most.
   */
  lemma {:induction false} NextExactly(l: Limits, s: Option<Stored>, now: int, bytes: nat)
    requires l.Valid()
    ensures var next := Next(l, s, now, bytes);
      && next.entry.lastUpdate == now
      && next.entry.bytesServed ==
         (if && s.Some? && (s.value.expiresAt.None? || now < s.value.expiresAt.value)
             && (now - s.value.entry.lastUpdate) * l.rate < s.value.entry.bytesServed
          then (s.value.entry.bytesServed - (now - s.value.entry.lastUpdate) * l.rate + bytes) % 0x1_0000_0000
          else bytes)
    ensures var t := 2 * (if bytes < l.maxdebt then l.maxdebt else bytes) / l.rate;
      Next(l, s, now, bytes).expiresAt ==
        if t == 0 then None else if t < 2592000 then Some(now + t) else Some(now + 2592000)
  {
  }

  /** Cache keys of different clients differ. */
  lemma {:induction false} KeysDiffer(prefix: string, a: string, b: string)
    ensures prefix + a == prefix + b <==> a == b
  {
    assert (prefix + a)[|prefix|..] == a && (prefix + b)[|prefix|..] == b;
  }

  class MemcachedRateLimiter {
    /** Whether a cache server is configured. */
    const enabled: bool
    const user: Limits
    const moderator: Limits
    var store: map<string, Stored>

    constructor (enabled: bool, user: Limits, moderator: Limits)
      requires user.Valid() && moderator.Valid()
      ensures this.enabled == enabled && this.user == user && this.moderator == moderator && store == map[]
    {
      this.enabled, this.user, this.moderator, store := enabled, user, moderator, map[];
    }

    function For(isModerator: bool): Limits { if isModerator then moderator else user }

    function Lookup(key: string): Option<Stored>
      reads `store
    {
      if enabled && "cgimap:" + key in store then Some(store["cgimap:" + key]) else None
    }

    method Debt(l: Limits, key: string, now: int) returns (bytesServed: nat)
      ensures bytesServed == Remaining(l, Live(Lookup(key), now), now)
    {
      bytesServed := 0;
      if enabled {
        var sp := Live(Lookup(key), now);
        if sp.Some? {
          var elapsed := now - sp.value.lastUpdate;
          if Earned(l, elapsed) < sp.value.bytesServed {
            bytesServed := ToUint32(sp.value.bytesServed - Earned(l, elapsed));
          }
        }
      }
    }

    method Check(key: string, isModerator: bool, now: int) returns (exceeded: bool, retry: int)
      requires user.Valid() && moderator.Valid()
      ensures var l := if isModerator then moderator else user; var debt := Remaining(l, Live(Lookup(key), now), now);
        && (exceeded <==> debt >= l.maxdebt)
        && retry == if exceeded then ToInt32(RetryAfter(l, debt)) else 0
    {
      var l := For(isModerator);
      var bytesServed := Debt(l, key, now);
      if bytesServed < l.maxdebt {
        return false, 0;
      } else {
        return true, ToInt32(RetryAfter(l, bytesServed));
      }
    }

    method Update(key: string, bytes: nat, isModerator: bool, now: int)
      requires user.Valid() && moderator.Valid()
      modifies `store
      ensures store ==
        if !enabled then old(store)
        else
          var l := if isModerator then moderator else user;
          old(store)["cgimap:" + key := Next(l, old(Lookup(key)), now, bytes)]
      ensures enabled ==>
        Lookup(key) == Some(Next(if isModerator then moderator else user, old(Lookup(key)), now, bytes))
      ensures forall k :: k != key ==> Lookup(k) == old(Lookup(k))
    {
      if !enabled {
        return;
      }
      var mcKey := "cgimap:" + key;
      forall k: string {
        KeysDiffer("cgimap:", k, key);
      }
      var l := For(isModerator);
      var relevantBytes := Max(l.maxdebt, bytes);
      var expiration := Min(SECONDS_30_DAYS, 2 * relevantBytes / l.rate);
      var expiresAt := if expiration == 0 then None else Some(now + expiration);
      var sp := Live(Lookup(key), now);
      if sp.Some? {
        var elapsed := now - sp.value.lastUpdate;
        if Earned(l, elapsed) < sp.value.bytesServed {
          var bytesServed := ToUint32(sp.value.bytesServed - Earned(l, elapsed) + bytes);
          store := store[mcKey := Stored(Entry(now, bytesServed), expiresAt)];
        } else {
          store := store[mcKey := Stored(Entry(now, bytes), expiresAt)];
        }
      } else {
        store := store[mcKey := Stored(Entry(now, bytes), expiresAt)];
      }
    }
  }

  // ---------- Retry time ----------

  lemma {:induction false} Quotient(d: nat, r: nat)
    requires r > 0
    ensures d / r * r <= d < d / r * r + r
  {
  }

  lemma {:induction false} EarnedSum(l: Limits, a: int, b: int)
    ensures Earned(l, a + b) == Earned(l, a) + Earned(l, b)
  {
  }

  lemma {:induction false} EarnedOrder(l: Limits, a: int, b: int)
    requires a <= b
    ensures Earned(l, a) <= Earned(l, b)
  {
    EarnedSum(l, b - a, a);
    assert Earned(l, b - a) >= 0;
  }

  /** While an entry stays cached, its debt falls below the limit exactly at the retry time. */
  lemma {:induction false} DebtAtRetry(l: Limits, e: Entry, now: int, later: int)
    requires l.Valid() && e.bytesServed < 0x1_0000_0000 && e.lastUpdate <= now <= later
    requires Remaining(l, Some(e), now) >= l.maxdebt
    ensures Remaining(l, Some(e), later) < l.maxdebt <==> later >= now + RetryAfter(l, Remaining(l, Some(e), now))
  {
    var debt := Remaining(l, Some(e), now);
    var q := (debt - l.maxdebt) / l.rate;
    Quotient(debt - l.maxdebt, l.rate);
    EarnedOrder(l, 0, now - e.lastUpdate);
    EarnedOrder(l, now - e.lastUpdate, later - e.lastUpdate);
    EarnedSum(l, later - now, now - e.lastUpdate);
    assert debt == e.bytesServed - Earned(l, now - e.lastUpdate);
    EarnedSum(l, q, 1);
    assert Earned(l, q) == q * l.rate && Earned(l, 1) == l.rate;
    if later >= now + q + 1 {
      EarnedOrder(l, q + 1, later - now);
    } else {
      EarnedOrder(l, later - now, q);
    }
  }

  // ---------- Runs of requests of one client ----------

  /** An accepted request: when it was checked, when its response was recorded, and how many bytes that was. */
  datatype Request = Request(checkAt: int, updateAt: int, bytes: nat)

  function After(l: Limits, reqs: seq<Request>): Option<Stored>
    requires l.rate > 0
  {
    if reqs == [] then None
    else
      var last := reqs[|reqs| - 1];
      Some(Next(l, After(l, reqs[..|reqs| - 1]), last.updateAt, last.bytes))
  }

  /** The entry was there and is no longer returned. */
  predicate Lost(s: Option<Stored>, now: int) { s.Some? && Live(s, now).None? }

  /** The 30-day limit of the cache cuts the expiry. */
  predicate Capped(l: Limits, bytes: nat)
    requires l.rate > 0
  {
    2 * Max(l.maxdebt, bytes) / l.rate > SECONDS_30_DAYS
  }

  /** A check at a time, on what the cache then still returns. */
  predicate Accepts(l: Limits, s: Option<Stored>, now: int) { Remaining(l, Live(s, now), now) < l.maxdebt }

  /**
   Every request was accepted by a check and then recorded, one at a time and with time not running backwards; no
   response is so large that it takes an accepted debt past 32 bits.
   */
  predicate AcceptedRun(l: Limits, reqs: seq<Request>)
    requires l.rate > 0
  {
    reqs != [] ==>
      var before := reqs[..|reqs| - 1];
      var last := reqs[|reqs| - 1];
      var s := After(l, before);
      && AcceptedRun(l, before)
      && last.checkAt <= last.updateAt
      && last.bytes <= 0x1_0000_0000 - l.maxdebt
      && Accepts(l, s, last.checkAt)
      && (before != [] ==> before[|before| - 1].updateAt <= last.checkAt)
  }

  function BytesFrom(reqs: seq<Request>, j: nat): nat {
    if j >= |reqs| then 0 else BytesFrom(reqs[..|reqs| - 1], j) + reqs[|reqs| - 1].bytes
  }

  /** The debt that was left of the entries that expired unseen after request `j`. */
  function Dropped(l: Limits, reqs: seq<Request>, j: nat): nat
    requires l.rate > 0
  {
    if j + 1 >= |reqs| then 0
    else
      var before := reqs[..|reqs| - 1];
      Dropped(l, before, j) + DroppedAt(l, After(l, before), reqs[|reqs| - 1].updateAt)
  }

  function DroppedAt(l: Limits, s: Option<Stored>, now: int): nat {
    if Lost(s, now) then Remaining(l, Some(s.value.entry), now) else 0
  }

  /** How many entries expired unseen after request `j`. */
  function LossesAfter(l: Limits, reqs: seq<Request>, j: nat): nat
    requires l.rate > 0
  {
    if j + 1 >= |reqs| then 0
    else
      var before := reqs[..|reqs| - 1];
      LossesAfter(l, before, j) + if Lost(After(l, before), reqs[|reqs| - 1].updateAt) then 1 else 0
  }

  /** Waiting longer leaves no more debt. */
  lemma {:induction false} RemainingDecays(l: Limits, e: Entry, t0: int, t1: int)
    requires e.bytesServed < 0x1_0000_0000 && e.lastUpdate <= t0 <= t1
    ensures Remaining(l, Some(e), t1) == Max(0, e.bytesServed - Earned(l, t1 - e.lastUpdate))
    ensures Remaining(l, Some(e), t1) <= Remaining(l, Some(e), t0)
  {
    EarnedOrder(l, 0, t0 - e.lastUpdate);
    EarnedOrder(l, t0 - e.lastUpdate, t1 - e.lastUpdate);
  }

  /** The stored debt fits 32 bits, is below the limit plus the last response, and is never truncated. */
  lemma {:induction false} DebtIsBounded(l: Limits, reqs: seq<Request>)
    requires l.Valid() && reqs != [] && AcceptedRun(l, reqs)
    ensures var last := reqs[|reqs| - 1]; var before := After(l, reqs[..|reqs| - 1]);
      var e := After(l, reqs).value.entry;
      && e.lastUpdate == last.updateAt
      && e.bytesServed < l.maxdebt + last.bytes <= 0x1_0000_0000
      && e.bytesServed == Remaining(l, Live(before, last.updateAt), last.updateAt) + last.bytes
    decreases |reqs|
  {
    var before := reqs[..|reqs| - 1];
    var last := reqs[|reqs| - 1];
    var s := After(l, before);
    if before != [] {
      DebtIsBounded(l, before);
      if Live(s, last.updateAt).Some? {
        RemainingDecays(l, s.value.entry, last.checkAt, last.updateAt);
      }
    }
  }

  // ---------- Retry time over the life of the cached entry ----------

  /** A stored entry on which a client has just been rejected. */
  predicate Rejects(l: Limits, s: Stored, now: int) {
    s.entry.bytesServed < 0x1_0000_0000 && s.entry.lastUpdate <= now && !Accepts(l, Some(s), now)
  }

  /** Every entry that an update stores for a 32-bit response is of this kind, whatever came before. */
  lemma {:induction false} StoredFits(l: Limits, s: Option<Stored>, now: int, bytes: nat)
    requires l.rate > 0 && bytes < 0x1_0000_0000
    ensures Next(l, s, now, bytes).entry.bytesServed < 0x1_0000_0000 && Next(l, s, now, bytes).entry.lastUpdate == now
  {
  }

  function RetryTime(l: Limits, s: Stored, now: int): nat
    requires l.rate > 0 && Rejects(l, s, now)
  {
    RetryAfter(l, Remaining(l, Live(Some(s), now), now))
  }

  /** The entry is not dropped before the retry time. */
  predicate OutlivesRetry(l: Limits, s: Stored, now: int)
    requires l.rate > 0 && Rejects(l, s, now)
  {
    s.expiresAt.None? || now + RetryTime(l, s, now) <= s.expiresAt.value
  }

  /**
   As long as no update intervenes: when a rejected client is accepted, with the cache's expiry taken into account.
   */
  lemma {:induction false} AcceptedAgain(l: Limits, s: Stored, now: int, later: int)
    requires l.Valid() && Rejects(l, s, now) && now <= later
    ensures Accepts(l, Some(s), later) <==>
      later >= now + RetryTime(l, s, now) || (s.expiresAt.Some? && later >= s.expiresAt.value)
  {
    DebtAtRetry(l, s.entry, now, later);
  }

  /** Rejected at every second before the retry time and accepted from it on. */
  ghost predicate RetryExact(l: Limits, s: Stored, now: int)
    requires l.rate > 0 && Rejects(l, s, now)
  {
    forall later :: now <= later ==> (Accepts(l, Some(s), later) <==> later >= now + RetryTime(l, s, now))
  }

  /** Whatever entry is stored, the retry time is exact if and only if the entry outlives it. */
  lemma {:induction false} RetryIsExact(l: Limits, s: Stored, now: int)
    requires l.Valid() && Rejects(l, s, now)
    ensures RetryExact(l, s, now) <==> OutlivesRetry(l, s, now)
  {
    forall later | now <= later
      ensures Accepts(l, Some(s), later) <==>
        later >= now + RetryTime(l, s, now) || (s.expiresAt.Some? && later >= s.expiresAt.value)
    {
      AcceptedAgain(l, s, now, later);
    }
    if !OutlivesRetry(l, s, now) {
      var later := s.expiresAt.value;
      assert Accepts(l, Some(s), later) && later < now + RetryTime(l, s, now);
    }
  }

  /** A client that is rejected at a time after an accepted run. */
  predicate RejectedAfter(l: Limits, reqs: seq<Request>, now: int)
    requires l.rate > 0
  {
    && reqs != [] && AcceptedRun(l, reqs)
    && reqs[|reqs| - 1].updateAt <= now
    && !Accepts(l, After(l, reqs), now)
  }

  /** The time to live, where it is not cut, is long enough to earn the larger of limit and response. */
  lemma {:induction false} LifetimeEarns(l: Limits, bytes: nat)
    requires l.Valid() && !Capped(l, bytes) && Expiration(l, bytes) > 0
    ensures Earned(l, Expiration(l, bytes)) > Max(l.maxdebt, bytes)
  {
    var m := Max(l.maxdebt, bytes);
    Quotient(2 * m, l.rate);
    assert Earned(l, Expiration(l, bytes)) == 2 * m / l.rate * l.rate;
    EarnedOrder(l, 1, Expiration(l, bytes));
  }

  /** So an entry whose debt still reaches the limit has not come to its own expiry. */
  lemma {:induction false} StillInDebt(l: Limits, e: Entry, bytes: nat, now: int)
    requires l.Valid() && e.bytesServed < l.maxdebt + bytes <= 0x1_0000_0000 && !Capped(l, bytes)
    requires Expiration(l, bytes) > 0 && e.lastUpdate <= now && Remaining(l, Some(e), now) >= l.maxdebt
    ensures now < e.lastUpdate + Expiration(l, bytes)
  {
    LifetimeEarns(l, bytes);
    RemainingDecays(l, e, e.lastUpdate, now);
    if now - e.lastUpdate >= Expiration(l, bytes) {
      EarnedOrder(l, Expiration(l, bytes), now - e.lastUpdate);
    }
  }

  lemma {:induction false} EntryOutlivesRetry(l: Limits, e: Entry, bytes: nat, now: int)
    requires l.Valid() && e.bytesServed < l.maxdebt + bytes <= 0x1_0000_0000 && !Capped(l, bytes)
    requires Expiration(l, bytes) > 0 && e.lastUpdate <= now && Remaining(l, Some(e), now) >= l.maxdebt
    ensures now + RetryAfter(l, Remaining(l, Some(e), now)) <= e.lastUpdate + Expiration(l, bytes)
  {
    LastRejection(l, e, now, RetryAfter(l, Remaining(l, Some(e), now)) - 1);
    StillInDebt(l, e, bytes, now + RetryAfter(l, Remaining(l, Some(e), now)) - 1);
  }

  /** One second before the retry time the client is still rejected. */
  lemma {:induction false} LastRejection(l: Limits, e: Entry, now: int, wait: nat)
    requires l.Valid() && e.bytesServed < 0x1_0000_0000 && e.lastUpdate <= now
      && Remaining(l, Some(e), now) >= l.maxdebt
    requires wait < RetryAfter(l, Remaining(l, Some(e), now))
    ensures Remaining(l, Some(e), now + wait) >= l.maxdebt
  {
    DebtAtRetry(l, e, now, now + wait);
  }

  /** After an accepted run it does, and the retry time is exact, whenever the 30-day limit did not cut the expiry. */
  lemma {:induction false} UncappedOutlivesRetry(l: Limits, reqs: seq<Request>, now: int)
    requires l.Valid() && RejectedAfter(l, reqs, now) && !Capped(l, reqs[|reqs| - 1].bytes)
    ensures var s := After(l, reqs).value;
      Rejects(l, s, now) && OutlivesRetry(l, s, now) && RetryExact(l, s, now)
  {
    DebtIsBounded(l, reqs);
    var bytes := reqs[|reqs| - 1].bytes;
    var s := After(l, reqs).value;
    if Expiration(l, bytes) > 0 {
      EntryOutlivesRetry(l, s.entry, bytes, now);
    }
    RetryIsExact(l, s, now);
  }

  /**
   The retry time is at most the bytes of the last response, so the 32-bit `int` of the result holds it: the count of a
   response's bytes is itself such an `int`.
   */
  lemma {:induction false} RetryIsReported(l: Limits, reqs: seq<Request>, now: int)
    requires l.Valid() && RejectedAfter(l, reqs, now)
    ensures var s := After(l, reqs).value; var bytes := reqs[|reqs| - 1].bytes;
      && Rejects(l, s, now) && RetryTime(l, s, now) <= bytes
      && (bytes < 0x8000_0000 ==> ToInt32(RetryTime(l, s, now)) == RetryTime(l, s, now))
  {
    DebtIsBounded(l, reqs);
    var s := After(l, reqs).value;
    RetryAtMostExcess(l, s.entry, now);
  }

  lemma {:induction false} RetryAtMostExcess(l: Limits, e: Entry, now: int)
    requires l.Valid() && e.bytesServed < 0x1_0000_0000 && e.lastUpdate <= now
      && Remaining(l, Some(e), now) >= l.maxdebt
    ensures RetryAfter(l, Remaining(l, Some(e), now)) <= e.bytesServed - l.maxdebt + 1
  {
    RemainingDecays(l, e, e.lastUpdate, now);
    assert Earned(l, 0) == 0;
    QuotientAtMost(Remaining(l, Some(e), now) - l.maxdebt, l.rate);
  }

  lemma {:induction false} ProductAtLeast(q: nat, r: nat)
    requires r > 0
    ensures q <= q * r
  {
    assert q * r == q + q * (r - 1);
  }

  lemma {:induction false} QuotientAtMost(d: nat, r: nat)
    requires r > 0
    ensures d / r <= d
  {
    Quotient(d, r);
    ProductAtLeast(d / r, r);
  }

  /**
   Where the 30-day limit cuts the expiry, the entry can be dropped long before the reported time: at the lowest rate, a
   client that is told to wait more than 9,000,000 seconds is accepted after 2,592,000.
   */
  lemma {:induction false} CappedEntryForgotten()
    ensures var l := Limits(1, 1048576); var reqs := [Request(0, 0, 10485760)];
      && l.Valid() && RejectedAfter(l, reqs, 0)
      && var s := After(l, reqs).value;
      && Rejects(l, s, 0) && RetryTime(l, s, 0) > 9000000 && Accepts(l, Some(s), 2592000) && !OutlivesRetry(l, s, 0)
  {
    var l, reqs := Limits(1, 1048576), [Request(0, 0, 10485760)];
    assert reqs[..0] == [];
    assert AcceptedRun(l, []) && After(l, []) == None;
    assert Expiration(l, 10485760) == SECONDS_30_DAYS;
    assert After(l, reqs) == Some(Stored(Entry(0, 10485760), Some(2592000)));
  }

  // ---------- The bound on what a client is sent ----------

  /** A response is added to the debt without truncation exactly when the sum fits 32 bits. */
  lemma {:induction false} StoredExactly(l: Limits, s: Option<Stored>, now: int, bytes: nat)
    requires l.Valid() && bytes < 0x1_0000_0000
    requires s.Some? ==> s.value.entry.bytesServed < 0x1_0000_0000 && s.value.entry.lastUpdate <= now
    ensures var debt := Remaining(l, Live(s, now), now);
      Next(l, s, now, bytes).entry.bytesServed == debt + bytes <==> debt + bytes < 0x1_0000_0000
  {
    if Live(s, now).Some? {
      RemainingDecays(l, s.value.entry, s.value.entry.lastUpdate, now);
    }
  }

  /**
   One that does not fit: at the largest debt limit an accepted client that is sent 624,951,297 bytes more has no debt
   at all afterwards.
   */
  lemma {:induction false} TruncatedDebtForgiven()
    ensures var l := Limits(1, 3670016000);
      var s := Next(l, Some(Next(l, None, 0, 2000000000)), 0, 1670015999);
      l.Valid() && Accepts(l, Some(s), 0) && Next(l, Some(s), 0, 624951297).entry.bytesServed == 0
  {
  }

  /** An entry that expires under its own time to live takes less than one second's quota with it. */
  lemma {:induction false} ExpiryDropsLittle(l: Limits, e: Entry, bytes: nat, now: int)
    requires l.Valid() && e.bytesServed < l.maxdebt + bytes <= 0x1_0000_0000 && !Capped(l, bytes)
    requires Expiration(l, bytes) > 0 && e.lastUpdate + Expiration(l, bytes) <= now
    ensures Remaining(l, Some(e), now) < l.rate
    ensures e.bytesServed < Earned(l, now - e.lastUpdate) + l.rate
  {
    var m := Max(l.maxdebt, bytes);
    var ttl := Expiration(l, bytes);
    Quotient(2 * m, l.rate);
    assert Earned(l, ttl) == 2 * m / l.rate * l.rate;
    EarnedOrder(l, ttl, now - e.lastUpdate);
    RemainingDecays(l, e, e.lastUpdate, now);
  }

  /** The debt before a request is still there after it, was earned in between, or was dropped with an expired entry. */
  lemma {:induction false} DebtIsCarried(l: Limits, reqs: seq<Request>)
    requires l.Valid() && |reqs| > 1 && AcceptedRun(l, reqs)
    ensures var before := reqs[..|reqs| - 1]; var s := After(l, before); var now := reqs[|reqs| - 1].updateAt;
      s.value.entry.bytesServed <= Remaining(l, Live(s, now), now)
                                   + Earned(l, now - before[|before| - 1].updateAt)
                                   + DroppedAt(l, s, now)
  {
    var before := reqs[..|reqs| - 1];
    DebtIsBounded(l, before);
    RemainingDecays(l, After(l, before).value.entry, before[|before| - 1].updateAt, reqs[|reqs| - 1].updateAt);
  }

  /**
   What was recorded from request `j` on is covered by the stored debt, the quota earned since, and the debt dropped
   with the entries that expired in between.
   */
  lemma {:induction false} DebtCovers(l: Limits, reqs: seq<Request>, j: nat)
    requires l.Valid() && j < |reqs| && AcceptedRun(l, reqs)
    ensures BytesFrom(reqs, j) <= After(l, reqs).value.entry.bytesServed
                                  + Earned(l, reqs[|reqs| - 1].updateAt - reqs[j].updateAt)
                                  + Dropped(l, reqs, j)
    decreases |reqs|
  {
    DebtIsBounded(l, reqs);
    if j == |reqs| - 1 {
      assert BytesFrom(reqs, j) == BytesFrom(reqs[..j], j) + reqs[j].bytes == reqs[j].bytes;
    } else {
      var before := reqs[..|reqs| - 1];
      DebtCovers(l, before, j);
      DebtCoversNext(l, reqs, j);
    }
  }

  lemma {:induction false} WindowGrows(l: Limits, reqs: seq<Request>, j: nat)
    requires l.rate > 0 && j + 1 < |reqs|
    ensures var before, last := reqs[..|reqs| - 1], reqs[|reqs| - 1];
      && BytesFrom(reqs, j) == BytesFrom(before, j) + last.bytes
      && Dropped(l, reqs, j) == Dropped(l, before, j) + DroppedAt(l, After(l, before), last.updateAt)
  {
  }

  lemma {:induction false} DebtCoversNext(l: Limits, reqs: seq<Request>, j: nat)
    requires l.Valid() && j + 1 < |reqs| && AcceptedRun(l, reqs)
    requires var before := reqs[..|reqs| - 1];
      BytesFrom(before, j) <= After(l, before).value.entry.bytesServed
                              + Earned(l, before[|before| - 1].updateAt - reqs[j].updateAt)
                              + Dropped(l, before, j)
    ensures BytesFrom(reqs, j) <= After(l, reqs).value.entry.bytesServed
                                  + Earned(l, reqs[|reqs| - 1].updateAt - reqs[j].updateAt)
                                  + Dropped(l, reqs, j)
  {
    var before, last := reqs[..|reqs| - 1], reqs[|reqs| - 1];
    var s := After(l, before);
    var now, earlier := last.updateAt, before[|before| - 1].updateAt;
    WindowGrows(l, reqs, j);
    DebtIsBounded(l, reqs);
    DebtIsCarried(l, reqs);
    EarnedSum(l, now - earlier, earlier - reqs[j].updateAt);
    CoversStep(BytesFrom(before, j), s.value.entry.bytesServed, Earned(l, earlier - reqs[j].updateAt),
               Dropped(l, before, j), Remaining(l, Live(s, now), now), Earned(l, now - earlier), DroppedAt(l, s, now),
               last.bytes);
  }

  /** The bookkeeping of one more request. */
  lemma {:induction false} CoversStep(recorded: int, stored: int, earned: int, dropped: int, left: int, earnedNow: int,
                                      droppedNow: int, bytes: int)
    requires recorded <= stored + earned + dropped && stored <= left + earnedNow + droppedNow
    ensures recorded + bytes <= (left + bytes) + (earnedNow + earned) + (dropped + droppedNow)
  {
  }

  /**
   Bandwidth bound, for every run and every window that ends with an update: the bytes recorded since `t0` stay below
   the debt limit, the last response, the quota of the window, and the debt that the cache dropped in it.
   */
  lemma {:induction false} BandwidthBound(l: Limits, reqs: seq<Request>, j: nat, t0: int)
    requires l.Valid() && j < |reqs| && AcceptedRun(l, reqs) && t0 <= reqs[j].updateAt
    ensures var last := reqs[|reqs| - 1];
      BytesFrom(reqs, j) < l.maxdebt + last.bytes + (last.updateAt - t0) * l.rate + Dropped(l, reqs, j)
  {
    var last := reqs[|reqs| - 1];
    DebtCovers(l, reqs, j);
    DebtIsBounded(l, reqs);
    EarnedOrder(l, last.updateAt - reqs[j].updateAt, last.updateAt - t0);
  }

  /** No entry that expired unseen after request `j` had its expiry cut by the 30-day limit. */
  predicate NoCappedLoss(l: Limits, reqs: seq<Request>, j: nat)
    requires l.rate > 0
  {
    j + 1 < |reqs| ==>
      var before := reqs[..|reqs| - 1];
      && NoCappedLoss(l, before, j)
      && (Lost(After(l, before), reqs[|reqs| - 1].updateAt) ==> !Capped(l, before[|before| - 1].bytes))
  }

  /** Then what is dropped is at most one second's quota for each expired entry. */
  lemma {:induction false} DroppedIsLittle(l: Limits, reqs: seq<Request>, j: nat)
    requires l.Valid() && AcceptedRun(l, reqs) && NoCappedLoss(l, reqs, j)
    ensures Dropped(l, reqs, j) <= Earned(l, LossesAfter(l, reqs, j))
    decreases |reqs|
  {
    if j + 1 < |reqs| {
      var before := reqs[..|reqs| - 1];
      var s := After(l, before);
      DroppedIsLittle(l, before, j);
      EarnedSum(l, LossesAfter(l, before, j), 1);
      if Lost(s, reqs[|reqs| - 1].updateAt) {
        DebtIsBounded(l, before);
        ExpiryDropsLittle(l, s.value.entry, before[|before| - 1].bytes, reqs[|reqs| - 1].updateAt);
      }
    }
  }

  /** So the bound is then that of an ideal bucket, but for one second's quota for each expired entry. */
  lemma {:induction false} UncappedBandwidthBound(l: Limits, reqs: seq<Request>, j: nat, t0: int)
    requires l.Valid() && j < |reqs| && AcceptedRun(l, reqs) && t0 <= reqs[j].updateAt && NoCappedLoss(l, reqs, j)
    ensures var last := reqs[|reqs| - 1];
      BytesFrom(reqs, j) <
        l.maxdebt + last.bytes + (last.updateAt - t0) * l.rate + LossesAfter(l, reqs, j) * l.rate
  {
    BandwidthBound(l, reqs, j, t0);
    DroppedIsLittle(l, reqs, j);
  }

  /** The other half: the stored debt is attained by some request. */
  lemma {:induction false} DebtIsAttained(l: Limits, reqs: seq<Request>) returns (j: nat)
    requires l.Valid() && reqs != [] && AcceptedRun(l, reqs)
    ensures j < |reqs|
    ensures After(l, reqs).value.entry.bytesServed ==
      BytesFrom(reqs, j) - Earned(l, reqs[|reqs| - 1].updateAt - reqs[j].updateAt)
    decreases |reqs|
  {
    var before := reqs[..|reqs| - 1];
    var last := reqs[|reqs| - 1];
    var s := After(l, before);
    DebtIsBounded(l, reqs);
    j := |reqs| - 1;
    assert BytesFrom(reqs, j) == BytesFrom(before, j) + last.bytes == last.bytes;
    assert Earned(l, 0) == 0;
    if before != [] && Remaining(l, Live(s, last.updateAt), last.updateAt) > 0 {
      var previous := before[|before| - 1];
      DebtIsBounded(l, before);
      RemainingDecays(l, s.value.entry, previous.updateAt, last.updateAt);
      j := DebtIsAttained(l, before);
      EarnedSum(l, last.updateAt - previous.updateAt, previous.updateAt - reqs[j].updateAt);
    }
  }

  /** What was recorded from request `j` on, less what was earned since. */
  function NetFrom(l: Limits, reqs: seq<Request>, j: nat): int
    requires j < |reqs|
  {
    BytesFrom(reqs, j) - (reqs[|reqs| - 1].updateAt - reqs[j].updateAt) * l.rate
  }

  lemma {:induction false} DroppedFewer(l: Limits, reqs: seq<Request>, j: nat)
    requires l.rate > 0
    ensures Dropped(l, reqs, j) <= Dropped(l, reqs, 0)
    decreases |reqs|
  {
    if j + 1 < |reqs| {
      DroppedFewer(l, reqs[..|reqs| - 1], j);
    }
  }

  /**
   While the cache drops no debt, the stored debt is that of the ideal leaky bucket: the greatest over all requests of
   what was recorded since, less what was earned since.
   */
  lemma {:induction false} StoredDebtIsIdeal(l: Limits, reqs: seq<Request>) returns (j: nat)
    requires l.Valid() && reqs != [] && AcceptedRun(l, reqs) && Dropped(l, reqs, 0) == 0
    ensures j < |reqs| && After(l, reqs).value.entry.bytesServed == NetFrom(l, reqs, j)
    ensures forall k: nat :: k < |reqs| ==> NetFrom(l, reqs, k) <= NetFrom(l, reqs, j)
  {
    j := DebtIsAttained(l, reqs);
    forall k: nat | k < |reqs|
      ensures NetFrom(l, reqs, k) <= NetFrom(l, reqs, j)
    {
      DebtCovers(l, reqs, k);
      DroppedFewer(l, reqs, k);
    }
  }
}
