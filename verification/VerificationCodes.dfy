/** E-mail verification codes: a map that is only swept when it has grown, proved to
    answer every question as the full history of registrations and deletions would. */
module VerificationCodes {
  import opened Options

  const MAX_SIZE := 10
  const VALID_MINUTES := 10
  const NANOSECONDS := 1_000_000_000

  /** A map key: the purpose followed by the address. */
  datatype Slot = Slot(text: string)

  datatype Entry = Entry(code: string, time: int)

  type Store = map<Slot, Entry>

  function SlotOf(purpose: string, key: string): Slot {
    Slot(purpose + key)
  }

  /** Whole seconds, rounded toward zero. */
  function Seconds(nanoseconds: int): int {
    if nanoseconds >= 0 then nanoseconds / NANOSECONDS else -(-nanoseconds / NANOSECONDS)
  }

  predicate Expired(e: Entry, now: int) {
    Seconds(now - e.time) >= VALID_MINUTES * 60
  }

  lemma ExpiredIff(e: Entry, now: int)
    ensures Expired(e, now) <==> now - e.time >= 10 * 60 * NANOSECONDS
  {
  }

  lemma StaysExpired(e: Entry, now: int, later: int)
    requires Expired(e, now) && now <= later
    ensures Expired(e, later)
  {
    if now - e.time >= 0 {
      assert (later - e.time) / NANOSECONDS >= (now - e.time) / NANOSECONDS;
    }
  }

  // ----- the store -----

  function Swept(m: Store, now: int): Store {
    map k | k in m && !Expired(m[k], now) :: m[k]
  }

  function Registered(m: Store, k: Slot, e: Entry): Store {
    var grown := m[k := e];
    if |grown| > MAX_SIZE then Swept(grown, e.time) else grown
  }

  predicate Accepts(m: Store, k: Slot, code: string, now: int) {
    k in m && !Expired(m[k], now) && code == m[k].code
  }

  class VerificationMap {
    var entries: Store

    constructor ()
      ensures entries == map[]
    {
      entries := map[];
    }

    /** Either the map is small or it holds nothing that has expired. */
    method Register(key: string, code: string, purpose: string, now: int)
      modifies this
      ensures entries == Registered(old(entries), SlotOf(purpose, key), Entry(code, now))
      ensures |entries| <= 10 || forall k :: k in entries ==> !Expired(entries[k], now)
    {
      entries := entries[SlotOf(purpose, key) := Entry(code, now)];
      if |entries| > MAX_SIZE {
        RemoveExpired(now);
      }
    }

    method RemoveExpired(now: int)
      modifies this
      ensures entries == Swept(old(entries), now)
    {
      var todo := entries.Keys;
      ghost var before := entries;
      while todo != {}
        invariant todo <= entries.Keys <= before.Keys
        invariant forall k :: k in entries ==> entries[k] == before[k]
        invariant forall k :: k in before ==> (k in entries <==> k in todo || !Expired(before[k], now))
        decreases todo
      {
        var k :| k in todo;
        todo := todo - {k};
        if Expired(entries[k], now) {
          entries := entries - {k};
        }
      }
    }

    method Verify(key: string, code: string, purpose: string, now: int) returns (ok: bool)
      ensures ok == Accepts(entries, SlotOf(purpose, key), code, now)
    {
      var k := SlotOf(purpose, key);
      if k !in entries || Expired(entries[k], now) {
        return false;
      }
      return code == entries[k].code;
    }

    method DeleteKey(key: string, purpose: string)
      modifies this
      ensures entries == old(entries) - {SlotOf(purpose, key)}
    {
      entries := entries - {SlotOf(purpose, key)};
    }
  }

  // ----- the history -----

  datatype Event =
    | Register(purpose: string, key: string, code: string, time: int)
    | Delete(purpose: string, key: string, time: int)

  /** What the last event about this purpose and this address left behind. */
  function Last(events: seq<Event>, purpose: string, key: string): Option<Entry> {
    if events == [] then None
    else
      var e := events[|events| - 1];
      if e.purpose == purpose && e.key == key then
        if e.Register? then Some(Entry(e.code, e.time)) else None
      else Last(events[..|events| - 1], purpose, key)
  }

  function Play(events: seq<Event>): Store {
    if events == [] then map[]
    else
      var m := Play(events[..|events| - 1]);
      match events[|events| - 1]
      case Register(purpose, key, code, time) => Registered(m, SlotOf(purpose, key), Entry(code, time))
      case Delete(purpose, key, _) => m - {SlotOf(purpose, key)}
  }

  /** Time does not run backwards, and a purpose is one letter. */
  predicate Ordinary(events: seq<Event>) {
    (forall i, j :: 0 <= i < j < |events| ==> events[i].time <= events[j].time) &&
    (forall i :: 0 <= i < |events| ==> |events[i].purpose| == 1)
  }

  lemma SlotsDoNotCollide(p: string, k: string, p': string, k': string)
    requires |p| == |p'| == 1 && SlotOf(p, k) == SlotOf(p', k')
    ensures p == p' && k == k'
  {
    assert (p + k)[..1] == p && (p + k)[1..] == k;
    assert (p' + k')[..1] == p' && (p' + k')[1..] == k';
  }

  /** The map agrees with the history except for what has expired. */
  predicate Agrees(m: Store, last: Option<Entry>, slot: Slot, now: int) {
    if slot in m then last == Some(m[slot]) else last.None? || Expired(last.value, now)
  }

  lemma RegisterAgrees(m: Store, k: Slot, e: Entry, slot: Slot, last: Option<Entry>, now: int)
    requires Agrees(m, last, slot, now) && now <= e.time
    ensures Agrees(Registered(m, k, e), if slot == k then Some(e) else last, slot, e.time)
  {
    if slot != k && slot !in m && last.Some? {
      StaysExpired(last.value, now, e.time);
    }
  }

  lemma {:induction false} PlayAgrees(events: seq<Event>, purpose: string, key: string, now: int)
    requires Ordinary(events) && |purpose| == 1 && forall i :: 0 <= i < |events| ==> events[i].time <= now
    ensures Agrees(Play(events), Last(events, purpose, key), SlotOf(purpose, key), now)
  {
    if events != [] {
      var n := |events| - 1;
      var e, slot := events[n], SlotOf(purpose, key);
      var last := Last(events[..n], purpose, key);
      PlayAgrees(events[..n], purpose, key, e.time);
      if SlotOf(e.purpose, e.key) == slot {
        SlotsDoNotCollide(e.purpose, e.key, purpose, key);
      }
      if e.Register? {
        RegisterAgrees(Play(events[..n]), SlotOf(e.purpose, e.key), Entry(e.code, e.time), slot, last, e.time);
      }
      LaterAgrees(Play(events), Last(events, purpose, key), slot, e.time, now);
    }
  }

  lemma LaterAgrees(m: Store, last: Option<Entry>, slot: Slot, now: int, later: int)
    requires Agrees(m, last, slot, now) && now <= later
    ensures Agrees(m, last, slot, later)
  {
    if slot !in m && last.Some? {
      StaysExpired(last.value, now, later);
    }
  }

  /** Main theorem: a code is accepted exactly when it is the last one registered for the
      purpose and the address, was not deleted since, and is less than ten minutes old. */
  lemma AcceptsLastRegistered(events: seq<Event>, purpose: string, key: string, code: string, now: int)
    requires Ordinary(events) && |purpose| == 1 && forall i :: 0 <= i < |events| ==> events[i].time <= now
    ensures Accepts(Play(events), SlotOf(purpose, key), code, now) <==>
      var last := Last(events, purpose, key);
      last.Some? && last.value.code == code && now - last.value.time < 10 * 60 * NANOSECONDS
  {
    PlayAgrees(events, purpose, key, now);
    forall e: Entry ensures Expired(e, now) <==> now - e.time >= 10 * 60 * NANOSECONDS {
      ExpiredIff(e, now);
    }
    hide Expired, Play, Last;
  }

  /** A clock that runs backwards can revive what the map has already forgotten: the
      history would accept the code, the swept map does not. */
  lemma SweepIsFinal(m: Store, k: Slot, now: int)
    requires k in m && Expired(m[k], now)
    ensures !Accepts(Swept(m, now), k, m[k].code, m[k].time) && Accepts(m, k, m[k].code, m[k].time)
  {
  }
}
