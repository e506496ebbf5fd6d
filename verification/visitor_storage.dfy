/**
 * The kiosk's local session cache (`useVisitorStorage`): the list of
 * visitors checked in on this device, kept in browser storage, with an
 * idempotent add, a checkout that stamps every record with the id, and
 * a sweep that forgets records checked in more than a day ago.
 *
 * Timestamps are milliseconds since the epoch; the source compares ISO
 * strings, whose order is the order of the instants they denote.
 */
module VisitorStorage {
  import opened Wrappers
  import Seqs

  /** 24 * 60 * 60 * 1000. */
  const DAY_MS: int := 86_400_000
  const HOUR_MS: int := 3_600_000

  datatype LocalVisitor = LocalVisitor(
    id: string,
    fullName: string,
    personToMeet: Option<string>,
    reasonForVisit: Option<string>,
    otherReason: Option<string>,
    phoneNumber: Option<string>,
    photo: Option<string>,
    checkInTime: int,
    checkOutTime: Option<int>)

  /** What the storage key holds: nothing (or the empty string), text that does not parse, or a parsed list. */
  datatype Stored = Absent | Unparseable | Parsed(records: seq<LocalVisitor>)

  /** The initial load: the parsed list, or an empty one when the key is absent or parsing fails. */
  function LoadVisitors(stored: Stored): (r: seq<LocalVisitor>)
    ensures !stored.Parsed? ==> r == []
    ensures stored.Parsed? ==> r == stored.records
  {
    match stored
    case Parsed(records) => records
    case _ => []
  }

  predicate HasId(vs: seq<LocalVisitor>, id: string) {
    exists i :: 0 <= i < |vs| && vs[i].id == id
  }

  /** No two records share an id. */
  predicate UniqueIds(vs: seq<LocalVisitor>) {
    forall i, j :: 0 <= i < |vs| && 0 <= j < |vs| && vs[i].id == vs[j].id ==> i == j
  }

  /** The record `addVisitor` builds: only the id, the name and the check-in time, still open. */
  function NewVisitor(id: string, fullName: string, now: int): LocalVisitor {
    LocalVisitor(id, fullName, None, None, None, None, None, now, None)
  }

  /** `addVisitor`'s update: unchanged when the id is already present, else the new record appended. */
  function WithVisitor(vs: seq<LocalVisitor>, id: string, fullName: string, now: int): (r: seq<LocalVisitor>)
    ensures HasId(r, id)
    ensures |vs| <= |r| && r[..|vs|] == vs
    ensures HasId(vs, id) ==> r == vs
    ensures !HasId(vs, id) ==>
              (|r| == |vs| + 1 && r[|vs|].id == id && r[|vs|].fullName == fullName
               && r[|vs|].checkInTime == now && r[|vs|].checkOutTime.None?)
  {
    if HasId(vs, id) then vs
    else
      var r := vs + [NewVisitor(id, fullName, now)];
      assert r[|vs|].id == id;
      r
  }

  function Stamp(v: LocalVisitor, id: string, t: int): LocalVisitor {
    if v.id == id then v.(checkOutTime := Some(t)) else v
  }

  /** `checkOutVisitor`'s update: every record with the id gets the new checkout time, whatever it had. */
  function StampCheckOut(vs: seq<LocalVisitor>, id: string, t: int): (r: seq<LocalVisitor>)
    ensures |r| == |vs|
    ensures forall i :: 0 <= i < |vs| ==> r[i].id == vs[i].id && r[i] == vs[i].(checkOutTime := r[i].checkOutTime)
    ensures forall i :: 0 <= i < |vs| && vs[i].id == id ==> r[i].checkOutTime == Some(t)
    ensures forall i :: 0 <= i < |vs| && vs[i].id != id ==> r[i] == vs[i]
  {
    seq(|vs|, i requires 0 <= i < |vs| => Stamp(vs[i], id, t))
  }

  function IdIs(id: string): LocalVisitor -> bool {
    (v: LocalVisitor) => v.id == id
  }

  /** `visitors.find(v => v.id === id) ?? null`. */
  function FindById(vs: seq<LocalVisitor>, id: string): (r: Option<LocalVisitor>)
    ensures r.None? <==> !HasId(vs, id)
    ensures r.Some? ==> r.value in vs && r.value.id == id
    ensures r.Some? ==> exists k :: 0 <= k < |vs| && vs[k] == r.value && forall j :: 0 <= j < k ==> vs[j].id != id
  {
    var r := Seqs.Find(vs, IdIs(id));
    if r.Some? then
      var k := Seqs.FirstIndex(vs, IdIs(id)).value;
      assert forall j :: 0 <= j < k ==> !IdIs(id)(vs[j]);
      r
    else r
  }

  /** The sweep's test: checked in strictly after one day before `now`. */
  function Recent(now: int): LocalVisitor -> bool {
    (v: LocalVisitor) => v.checkInTime > now - DAY_MS
  }

  /** `cleanupOldVisitors`' update: the records checked in within the last day, in order. */
  function SweepExpired(vs: seq<LocalVisitor>, now: int): (r: seq<LocalVisitor>)
    ensures |r| <= |vs|
    ensures forall i :: 0 <= i < |r| ==> r[i] in vs && r[i].checkInTime > now - DAY_MS
    ensures forall i :: 0 <= i < |vs| && vs[i].checkInTime > now - DAY_MS ==> vs[i] in r
  {
    Seqs.Filter(vs, Recent(now))
  }

  /** Adding twice with the same id is adding once: the second add leaves the list as it was. */
  lemma AddIdempotent(vs: seq<LocalVisitor>, id: string, fullName: string, now: int, fullName2: string, later: int)
    ensures WithVisitor(WithVisitor(vs, id, fullName, now), id, fullName2, later) == WithVisitor(vs, id, fullName, now)
  {
  }

  /** Adding keeps ids unique. */
  lemma AddKeepsIdsUnique(vs: seq<LocalVisitor>, id: string, fullName: string, now: int)
    requires UniqueIds(vs)
    ensures UniqueIds(WithVisitor(vs, id, fullName, now))
  {
  }

  /** After an add, looking the id up finds the earlier record if there was one, else the new open record. */
  lemma AddThenFind(vs: seq<LocalVisitor>, id: string, fullName: string, now: int)
    ensures HasId(vs, id) ==> FindById(WithVisitor(vs, id, fullName, now), id) == FindById(vs, id)
    ensures !HasId(vs, id) ==>
      FindById(WithVisitor(vs, id, fullName, now), id) == Some(NewVisitor(id, fullName, now))
  {
    var r := WithVisitor(vs, id, fullName, now);
    if !HasId(vs, id) {
      var k := Seqs.FirstIndex(r, IdIs(id));
      assert k.Some? && k.value == |vs|;
    }
  }

  /** Checking out an id that is not in the list leaves the list as it was. */
  lemma CheckOutAbsentIsIdentity(vs: seq<LocalVisitor>, id: string, t: int)
    requires !HasId(vs, id)
    ensures StampCheckOut(vs, id, t) == vs
  {
  }

  /** A second checkout overwrites the first: the list is as if only the last one happened. */
  lemma CheckOutOverwrites(vs: seq<LocalVisitor>, id: string, t1: int, t2: int)
    ensures StampCheckOut(StampCheckOut(vs, id, t1), id, t2) == StampCheckOut(vs, id, t2)
  {
  }

  /** Checkout keeps the ids, so it keeps them unique. */
  lemma CheckOutKeepsIdsUnique(vs: seq<LocalVisitor>, id: string, t: int)
    requires UniqueIds(vs)
    ensures UniqueIds(StampCheckOut(vs, id, t))
  {
  }

  /** With unique ids, the record found before the update is the one the update closes, and nothing else changes. */
  lemma CheckOutClosesFoundRecord(vs: seq<LocalVisitor>, id: string, t: int)
    requires UniqueIds(vs) && HasId(vs, id)
    ensures exists k ::
              && 0 <= k < |vs| && vs[k] == FindById(vs, id).value
              && StampCheckOut(vs, id, t) == vs[k := vs[k].(checkOutTime := Some(t))]
  {
    var k := Seqs.FirstIndex(vs, IdIs(id)).value;
    var r := StampCheckOut(vs, id, t);
    assert r == vs[k := vs[k].(checkOutTime := Some(t))];
  }

  /** A record checked in exactly one day before the sweep is dropped. */
  lemma SweepDropsBoundary(v: LocalVisitor, now: int)
    requires v.checkInTime == now - DAY_MS
    ensures SweepExpired([v], now) == []
  {
  }

  /** A record checked in 23 hours before the sweep is kept; one checked in 25 hours before is dropped. */
  lemma SweepHours(v: LocalVisitor, w: LocalVisitor, now: int)
    requires v.checkInTime == now - 23 * HOUR_MS
    requires w.checkInTime == now - 25 * HOUR_MS
    ensures SweepExpired([v, w], now) == [v]
  {
    Seqs.FilterAppend([v], [w], Recent(now));
    assert [v] + [w] == [v, w];
  }

  /** The sweep treats the list piecewise, so it keeps the surviving records in their order. */
  lemma SweepAppend(a: seq<LocalVisitor>, b: seq<LocalVisitor>, now: int)
    ensures SweepExpired(a + b, now) == SweepExpired(a, now) + SweepExpired(b, now)
  {
    Seqs.FilterAppend(a, b, Recent(now));
  }

  /** A later sweep subsumes an earlier one; in particular sweeping twice at the same time is sweeping once. */
  lemma SweepLater(vs: seq<LocalVisitor>, now: int, later: int)
    requires now <= later
    ensures SweepExpired(SweepExpired(vs, now), later) == SweepExpired(vs, later)
  {
    Seqs.FilterNarrower(vs, Recent(now), Recent(later));
  }

  /** A visitor added at `now` survives a sweep at `now`. */
  lemma SweepKeepsJustAdded(vs: seq<LocalVisitor>, id: string, fullName: string, now: int)
    requires !HasId(vs, id)
    ensures NewVisitor(id, fullName, now) in SweepExpired(WithVisitor(vs, id, fullName, now), now)
  {
    var r := WithVisitor(vs, id, fullName, now);
    assert r[|vs|] == NewVisitor(id, fullName, now);
  }

  /** The `visitors` state of the hook, with its three updates. */
  class VisitorStore {
    var visitors: seq<LocalVisitor>

    /** The initial load, followed by the sweep the hook runs on mount. */
    constructor (stored: Stored, now: int)
      ensures visitors == SweepExpired(LoadVisitors(stored), now)
    {
      visitors := LoadVisitors(stored);
      new;
      CleanupOldVisitors(now);
    }

    /** `addVisitor`: a no-op when the id is present, else the new open record is appended. */
    method AddVisitor(id: string, fullName: string, now: int)
      modifies this
      ensures visitors == WithVisitor(old(visitors), id, fullName, now)
      ensures UniqueIds(old(visitors)) ==> UniqueIds(visitors)
    {
      if !HasId(visitors, id) {
        visitors := visitors + [NewVisitor(id, fullName, now)];
      }
      if UniqueIds(old(visitors)) {
        AddKeepsIdsUnique(old(visitors), id, fullName, now);
      }
    }

    /** `checkOutVisitor`: stamps the records with the id and returns the record as it was before. */
    method CheckOutVisitor(id: string, now: int) returns (found: Option<LocalVisitor>)
      modifies this
      ensures found == FindById(old(visitors), id)
      ensures visitors == StampCheckOut(old(visitors), id, now)
      ensures UniqueIds(old(visitors)) ==> UniqueIds(visitors)
    {
      found := FindById(visitors, id);
      visitors := StampCheckOut(visitors, id, now);
      if UniqueIds(old(visitors)) {
        CheckOutKeepsIdsUnique(old(visitors), id, now);
      }
    }

    /** `cleanupOldVisitors`: forgets the records checked in one day or more before `now`. */
    method CleanupOldVisitors(now: int)
      modifies this
      ensures visitors == SweepExpired(old(visitors), now)
    {
      visitors := SweepExpired(visitors, now);
    }
  }
}
