/** The expiring verification codes of common/verification.go. Times are nanoseconds. */
module VerificationCodes {
  import opened Prelude

  const MAX_SIZE := 10
  const VALID_MINUTES := 10
  const NANOS_PER_SECOND := 1_000_000_000

  datatype Value = Value(code: string, time: int)

  type Codes = map<string, Value>

  /** int(now.Sub(t).Seconds()) >= VerificationValidMinutes * 60, for a clock that does not go
      back. */
  predicate Expired(v: Value, now: int) {
    (now - v.time) / NANOS_PER_SECOND >= VALID_MINUTES * 60
  }

  function Swept(codes: Codes, now: int): Codes {
    map slot | slot in codes && !Expired(codes[slot], now) :: codes[slot]
  }

  function Registered(codes: Codes, slot: string, code: string, now: int, sweepAt: int): Codes {
    var codes' := codes[slot := Value(code, now)];
    if |codes'| > MAX_SIZE then Swept(codes', sweepAt) else codes'
  }

  predicate Verified(codes: Codes, slot: string, code: string, now: int) {
    slot in codes && !Expired(codes[slot], now) && code == codes[slot].code
  }

  class Store {
    var codes: Codes

    constructor ()
      ensures codes == map[]
    {
      codes := map[];
    }

    method RemoveExpiredPairs(now: int)
      modifies this
      ensures codes == Swept(old(codes), now)
    {
      var pending := codes.Keys;
      while pending != {}
        invariant pending <= codes.Keys <= old(codes).Keys
        invariant forall slot <- codes :: codes[slot] == old(codes)[slot]
        invariant forall slot :: slot in old(codes) && slot !in pending ==>
                    (slot in codes <==> !Expired(old(codes)[slot], now))
        decreases pending
      {
        var slot :| slot in pending;
        pending := pending - {slot};
        if Expired(codes[slot], now) {
          codes := codes - {slot};
        }
      }
    }

    /** `sweepAt` is the clock as read by the eviction. */
    method Register(key: string, code: string, purpose: string, now: int, sweepAt: int)
      modifies this
      ensures codes == Registered(old(codes), purpose + key, code, now, sweepAt)
    {
      codes := codes[purpose + key := Value(code, now)];
      if |codes| > MAX_SIZE {
        RemoveExpiredPairs(sweepAt);
      }
    }

    method Verify(key: string, code: string, purpose: string, now: int) returns (ok: bool)
      ensures ok <==> Verified(codes, purpose + key, code, now)
    {
      var slot := purpose + key;
      if slot !in codes || (now - codes[slot].time) / NANOS_PER_SECOND >= VALID_MINUTES * 60 {
        return false;
      }
      return code == codes[slot].code;
    }

    method DeleteKey(key: string, purpose: string)
      modifies this
      ensures codes == old(codes) - {purpose + key}
    {
      codes := codes - {purpose + key};
    }
  }

  // ---------------------------------------------------------------- the log

  datatype Event =
    | Register(key: string, purpose: string, code: string, now: int, sweepAt: int)
    | Delete(key: string, purpose: string)

  /** The store after a run. */
  function Play(events: seq<Event>): Codes {
    if events == [] then map[]
    else
      var n := |events| - 1;
      var codes := Play(events[..n]);
      match events[n]
      case Register(key, purpose, code, now, sweepAt) => Registered(codes, purpose + key, code, now, sweepAt)
      case Delete(key, purpose) => codes - {purpose + key}
  }

  /** The same run read as an append-only log: the last code registered for this purpose and
      key and not deleted since. Nothing is ever evicted. */
  function Last(events: seq<Event>, purpose: string, key: string): Option<Value> {
    if events == [] then None
    else
      var n := |events| - 1;
      if events[n].purpose != purpose || events[n].key != key then Last(events[..n], purpose, key)
      else match events[n]
        case Register(_, _, code, now, _) => Some(Value(code, now))
        case Delete(_, _) => None
  }

  predicate VerifiedByLog(events: seq<Event>, purpose: string, key: string, code: string, now: int) {
    match Last(events, purpose, key)
    case None => false
    case Some(v) => now - v.time < 600_000_000_000 && code == v.code
  }

  /** The clock does not go back, up to `now`. */
  ghost predicate Ordered(events: seq<Event>, now: int) {
    events == [] ||
    var n := |events| - 1;
    match events[n]
    case Register(_, _, _, at, sweepAt) => at <= sweepAt <= now && Ordered(events[..n], at)
    case Delete(_, _) => Ordered(events[..n], now)
  }

  predicate PrefixFree(p: string, q: string) {
    !(p <= q) && !(q <= p)
  }

  /** The purposes in use cannot be confused. */
  ghost predicate Separate(events: seq<Event>, purpose: string) {
    forall i :: 0 <= i < |events| ==> events[i].purpose == purpose || PrefixFree(events[i].purpose, purpose)
  }

  // ---------------------------------------------------------------- eviction is invisible

  lemma PrefixFreeSlotsDiffer(p: string, k: string, q: string, l: string)
    requires PrefixFree(p, q)
    ensures p + k != q + l
  {
    var i :| 0 <= i < |p| && i < |q| && p[i] != q[i];
    assert (p + k)[i] == p[i] && (q + l)[i] == q[i];
  }

  /** Two purposes share a slot for some keys exactly when one is a prefix of the other. */
  lemma SlotsCollideIff(p: string, q: string)
    ensures (exists k, l: string :: p + k == q + l) <==> !PrefixFree(p, q)
  {
    if p <= q {
      assert p + q[|p|..] == q + "";
    } else if q <= p {
      assert p + "" == q + p[|q|..];
    } else {
      forall k, l: string ensures p + k != q + l { PrefixFreeSlotsDiffer(p, k, q, l); }
    }
  }

  lemma SameSlot(p: string, k: string, q: string, l: string)
    requires p == q || PrefixFree(p, q)
    ensures p + k == q + l <==> p == q && k == l
  {
    if p == q {
      assert (p + k)[|p|..] == k && (q + l)[|q|..] == l;
    } else {
      PrefixFreeSlotsDiffer(p, k, q, l);
    }
  }

  /** A slot holds the log's value, or the log's value has expired and the slot is empty. */
  lemma {:induction false} SlotFollowsLog(events: seq<Event>, purpose: string, key: string, now: int)
    requires Ordered(events, now) && Separate(events, purpose)
    ensures var codes, slot, last := Play(events), purpose + key, Last(events, purpose, key);
            if slot in codes then last == Some(codes[slot]) else last.None? || Expired(last.value, now)
  {
    if events != [] {
      var n := |events| - 1;
      var e := events[n];
      SameSlot(e.purpose, e.key, purpose, key);
      assert Separate(events[..n], purpose);
      SlotFollowsLog(events[..n], purpose, key, if e.Register? then e.now else now);
    }
  }

  /** Every answer equals that of the log: the code is the last one registered for that purpose
      and key, not deleted since, and under ten minutes old. So the eviction is never
      observable and purposes never collide. */
  lemma EvictionIsInvisible(events: seq<Event>, purpose: string, key: string, code: string, now: int)
    requires Ordered(events, now) && Separate(events, purpose)
    ensures Verified(Play(events), purpose + key, code, now) <==> VerifiedByLog(events, purpose, key, code, now)
  {
    SlotFollowsLog(events, purpose, key, now);
  }

  /** Registering stores the code. Up to ten slots nothing else changes; with more, exactly the codes that are ten
      minutes old when the eviction looks are gone. */
  lemma RegisterKeeps(codes: Codes, slot: string, code: string, now: int, sweepAt: int, other: string)
    ensures var before, after := codes[slot := Value(code, now)], Registered(codes, slot, code, now, sweepAt);
            && (|before| <= 10 ==> after == before)
            && (|before| > 10 ==>
                  && (other in after <==> other in before && sweepAt - before[other].time < 600_000_000_000)
                  && (other in after ==> after[other] == before[other]))
  {
  }

  /** The two purposes of the program are separate. */
  lemma ProgramPurposes()
    ensures PrefixFree("v", "r")
  {
    assert "v"[0] != "r"[0];
  }
}
