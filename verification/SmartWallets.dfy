/**
 The ledger of smart-wallet positions: a permanent baseline, deployed positions, and vetoes that
 expire. A diff offers the positions that nothing suppresses; an update records what became of them.
 */
module SmartWallets {
  import opened Options

  datatype Item = Item(position: string, pool: string)

  /** The vetoes carry the moment of the last veto. */
  datatype Snapshot = Snapshot(initialized: bool, positions: set<string>, vetoed: map<string, int>)

  datatype Processed = Processed(position: string, resolved: bool, vetoed: bool, at: int)

  datatype Diff = Diff(isFirstRun: bool, newPositions: seq<Item>, next: Snapshot)

  const EMPTY := Snapshot(false, {}, map[])

  // ---------- One diff ----------

  function PositionsOf(items: seq<Item>): set<string> {
    set i | 0 <= i < |items| :: items[i].position
  }

  function ActiveVetoes(vetoed: map<string, int>, now: int, ttl: int): map<string, int> {
    map p | p in vetoed && now - vetoed[p] < ttl :: vetoed[p]
  }

  function Unknown(items: seq<Item>, known: set<string>): seq<Item> {
    if items == [] then []
    else (if items[0].position in known then [] else [items[0]]) + Unknown(items[1..], known)
  }

  function DiffAt(items: seq<Item>, s: Snapshot, now: int, ttl: int): Diff {
    if !s.initialized then Diff(true, [], Snapshot(true, PositionsOf(items), map[]))
    else
      var active := ActiveVetoes(s.vetoed, now, ttl);
      Diff(false, Unknown(items, s.positions + active.Keys), Snapshot(true, s.positions, active))
  }

  /** The vetoes that are still young, and the positions that they and the ledger suppress. */
  method CollectVetoes(s: Snapshot, now: int, ttl: int) returns (known: set<string>, active: map<string, int>)
    ensures active == ActiveVetoes(s.vetoed, now, ttl) && known == s.positions + active.Keys
  {
    var rest := s.vetoed.Keys;
    known, active := s.positions, map[];
    while rest != {}
      invariant rest <= s.vetoed.Keys
      invariant active == ActiveVetoes(s.vetoed - rest, now, ttl)
      invariant known == s.positions + active.Keys
    {
      var p :| p in rest;
      if now - s.vetoed[p] < ttl {
        known, active := known + {p}, active[p := s.vetoed[p]];
      }
      rest := rest - {p};
    }
    assert s.vetoed - {} == s.vetoed;
  }

  method DropKnown(items: seq<Item>, known: set<string>) returns (found: seq<Item>)
    ensures found == Unknown(items, known)
  {
    found := [];
    for i := 0 to |items|
      invariant found + Unknown(items[i..], known) == Unknown(items, known)
    {
      if items[i].position !in known { found := found + [items[i]]; }
    }
  }

  method DiffSmartWalletPositions(items: seq<Item>, existing: Option<Snapshot>, now: int, ttl: int) returns (diff: Diff)
    ensures diff == DiffAt(items, existing.GetOr(EMPTY), now, ttl)
  {
    var s := existing.GetOr(EMPTY);
    if !s.initialized {
      return Diff(true, [], Snapshot(true, PositionsOf(items), map[]));
    }
    var known, active := CollectVetoes(s, now, ttl);
    var found := DropKnown(items, known);
    diff := Diff(false, found, Snapshot(true, s.positions, active));
  }

  // ---------- One update ----------

  function Book(s: Snapshot, item: Processed): Snapshot {
    if !item.resolved then s
    else if item.vetoed then s.(vetoed := s.vetoed[item.position := item.at])
    else s.(positions := s.positions + {item.position}, vetoed := s.vetoed - {item.position})
  }

  function BookAll(s: Snapshot, items: seq<Processed>): Snapshot
    decreases |items|
  {
    if items == [] then s else BookAll(Book(s, items[0]), items[1..])
  }

  method UpdateSnapshotPositions(s: Snapshot, items: seq<Processed>) returns (next: Snapshot)
    ensures next == BookAll(s.(initialized := true), items)
  {
    var known, vetoed := s.positions, s.vetoed;
    for i := 0 to |items|
      invariant BookAll(Snapshot(true, known, vetoed), items[i..]) == BookAll(s.(initialized := true), items)
    {
      var item := items[i];
      if item.resolved {
        if item.vetoed {
          vetoed := vetoed[item.position := item.at];
        } else {
          known, vetoed := known + {item.position}, vetoed - {item.position};
        }
      }
    }
    next := Snapshot(true, known, vetoed);
  }

  // ---------- Histories ----------

  datatype Event = Looked(items: seq<Item>, now: int) | Recorded(batch: seq<Processed>)

  function After(events: seq<Event>, ttl: int): Snapshot {
    if events == [] then EMPTY
    else
      var s := After(events[..|events| - 1], ttl);
      match events[|events| - 1]
      case Looked(items, now) => DiffAt(items, s, now, ttl).next
      case Recorded(items) => BookAll(s.(initialized := true), items)
  }

  predicate Deploys(item: Processed, position: string) {
    item.resolved && !item.vetoed && item.position == position
  }

  /** The position was seen by the very first look, or deployed since. */
  predicate Committed(events: seq<Event>, position: string) {
    || (events != [] && events[0].Looked? && position in PositionsOf(events[0].items))
    || exists i, j :: 0 <= i < |events| && events[i].Recorded? && 0 <= j < |events[i].batch| && Deploys(events[i].batch[j], position)
  }

  /** The moment of the last veto that no deploy followed, item by item. */
  function LastVetoIn(items: seq<Processed>, position: string, before: Option<int>): Option<int> {
    if items == [] then before
    else
      var item := items[0];
      LastVetoIn(items[1..], position,
                 if !item.resolved || item.position != position then before
                 else if item.vetoed then Some(item.at) else None)
  }

  function LastVeto(events: seq<Event>, position: string): Option<int> {
    if events == [] then None
    else
      var before := LastVeto(events[..|events| - 1], position);
      match events[|events| - 1]
      case Looked(_, _) => before
      case Recorded(items) => LastVetoIn(items, position, before)
  }

  /** Looks happen in the order of time, and `now` is not before any of them. */
  predicate InTime(events: seq<Event>, now: int) {
    && (forall i :: 0 <= i < |events| && events[i].Looked? ==> events[i].now <= now)
    && (forall i, j :: 0 <= i < j < |events| && events[i].Looked? && events[j].Looked? ==> events[i].now <= events[j].now)
  }

  predicate Suppressed(veto: Option<int>, now: int, ttl: int) {
    veto.Some? && now - veto.value < ttl
  }

  /** The stored vetoes are the last ones, but for some that had expired at an earlier look. */
  ghost predicate Refines(s: Snapshot, events: seq<Event>, now: int, ttl: int) {
    && (forall p :: p in s.positions <==> Committed(events, p))
    && (forall p :: p in s.vetoed ==> LastVeto(events, p) == Some(s.vetoed[p]))
    && (forall p :: p !in s.vetoed ==> !Suppressed(LastVeto(events, p), now, ttl))
  }

  lemma {:induction false} BookedItems(s: Snapshot, items: seq<Processed>)
    ensures var t := BookAll(s, items);
            && t.initialized == s.initialized
            && (forall p :: p in t.positions <==> p in s.positions || exists j :: 0 <= j < |items| && Deploys(items[j], p))
    decreases |items|
  {
    if items != [] {
      BookedItems(Book(s, items[0]), items[1..]);
      forall p ensures (exists j :: 0 <= j < |items| && Deploys(items[j], p)) <==>
                       (Deploys(items[0], p) || exists j :: 0 <= j < |items[1..]| && Deploys(items[1..][j], p))
      {
        if j :| 0 <= j < |items| && Deploys(items[j], p) {
          assert j > 0 ==> items[1..][j - 1] == items[j];
        }
      }
    }
  }

  /** The entry of one position in the vetoes, as an option. */
  function VetoOf(s: Snapshot, position: string): Option<int> {
    if position in s.vetoed then Some(s.vetoed[position]) else None
  }

  lemma {:induction false} BookedVetoes(s: Snapshot, items: seq<Processed>, position: string)
    ensures VetoOf(BookAll(s, items), position) == LastVetoIn(items, position, VetoOf(s, position))
    decreases |items|
  {
    if items != [] {
      BookedVetoes(Book(s, items[0]), items[1..], position);
    }
  }

  /** A veto that is missing from the snapshot but not expired in the history stays so or is replaced by both. */
  lemma {:induction false} LaterVetoesAgree(items: seq<Processed>, position: string, a: Option<int>, b: Option<int>)
    ensures LastVetoIn(items, position, a) == LastVetoIn(items, position, b)
         || (LastVetoIn(items, position, a) == a && LastVetoIn(items, position, b) == b)
  {
    if items != [] {
      var item := items[0];
      if !item.resolved || item.position != position {
        LaterVetoesAgree(items[1..], position, a, b);
      }
    }
  }

  lemma EarlierIsInTime(events: seq<Event>, now: int)
    requires events != [] && InTime(events, now)
    ensures var last := events[|events| - 1];
            InTime(events[..|events| - 1], if last.Looked? then last.now else now) && (last.Looked? ==> last.now <= now)
  {
  }

  lemma CommittedAfter(events: seq<Event>, position: string)
    requires events != []
    ensures var earlier, last := events[..|events| - 1], events[|events| - 1];
            Committed(events, position) <==>
              || Committed(earlier, position)
              || (last.Looked? && earlier == [] && position in PositionsOf(last.items))
              || (last.Recorded? && exists j :: 0 <= j < |last.batch| && Deploys(last.batch[j], position))
  {
    var n := |events| - 1;
    forall i | 0 <= i < n ensures events[..n][i] == events[i] {}
  }

  lemma LookRefines(s: Snapshot, events: seq<Event>, now: int, ttl: int)
    requires events != [] && events[|events| - 1].Looked?
    requires var t := events[|events| - 1].now; t <= now && Refines(s, events[..|events| - 1], t, ttl)
    requires s.initialized <==> |events| > 1
    requires !s.initialized ==> s == EMPTY
    ensures Refines(DiffAt(events[|events| - 1].items, s, events[|events| - 1].now, ttl).next, events, now, ttl)
  {
    forall p ensures LastVeto(events, p) == LastVeto(events[..|events| - 1], p) {}
    forall p { CommittedAfter(events, p); }
  }

  lemma RecordRefines(s: Snapshot, events: seq<Event>, now: int, ttl: int)
    requires events != [] && events[|events| - 1].Recorded?
    requires Refines(s, events[..|events| - 1], now, ttl)
    ensures Refines(BookAll(s.(initialized := true), events[|events| - 1].batch), events, now, ttl)
  {
    var items := events[|events| - 1].batch;
    var started := s.(initialized := true);
    BookedItems(started, items);
    forall p { CommittedAfter(events, p); }
    forall p
      ensures p in BookAll(started, items).vetoed ==> LastVeto(events, p) == Some(BookAll(started, items).vetoed[p])
      ensures p !in BookAll(started, items).vetoed ==> !Suppressed(LastVeto(events, p), now, ttl)
    {
      var before := LastVeto(events[..|events| - 1], p);
      BookedVetoes(started, items, p);
      LaterVetoesAgree(items, p, before, VetoOf(s, p));
    }
  }

  /** The snapshot keeps what matters of the history, as long as time does not run backwards. */
  lemma {:induction false} SnapshotRefinesHistory(events: seq<Event>, now: int, ttl: int)
    requires InTime(events, now)
    ensures Refines(After(events, ttl), events, now, ttl)
    ensures (After(events, ttl).initialized <==> events != []) && (events == [] ==> After(events, ttl) == EMPTY)
    decreases |events|
  {
    if events != [] {
      var earlier, last := events[..|events| - 1], events[|events| - 1];
      EarlierIsInTime(events, now);
      match last
      case Looked(_, t) =>
        SnapshotRefinesHistory(earlier, t, ttl);
        LookRefines(After(earlier, ttl), events, now, ttl);
      case Recorded(items) =>
        SnapshotRefinesHistory(earlier, now, ttl);
        RecordRefines(After(earlier, ttl), events, now, ttl);
        BookedItems(After(earlier, ttl).(initialized := true), items);
    }
  }

  lemma {:induction false} UnknownKeeps(items: seq<Item>, known: set<string>, item: Item)
    ensures item in Unknown(items, known) <==> item in items && item.position !in known
  {
    if items != [] {
      assert items == [items[0]] + items[1..];
      UnknownKeeps(items[1..], known, item);
    }
  }

  /** What the diff after this history offers. */
  function Offers(events: seq<Event>, items: seq<Item>, now: int, ttl: int): seq<Item> {
    DiffAt(items, After(events, ttl), now, ttl).newPositions
  }

  /** A position is offered exactly when it is there, is not committed, and its last veto has run out. */
  lemma OfferedIff(events: seq<Event>, items: seq<Item>, now: int, ttl: int, item: Item)
    requires InTime(events, now)
    ensures item in Offers(events, items, now, ttl) <==>
            events != [] && item in items && !Committed(events, item.position) && !Suppressed(LastVeto(events, item.position), now, ttl)
  {
    SnapshotRefinesHistory(events, now, ttl);
    var s := After(events, ttl);
    var active := ActiveVetoes(s.vetoed, now, ttl);
    assert item.position in active <==> Suppressed(LastVeto(events, item.position), now, ttl);
    UnknownKeeps(items, s.positions + active.Keys, item);
  }

  /** Baseline and deployed positions are never offered again, whatever happens afterwards. */
  lemma CommittedIsNeverOffered(events: seq<Event>, later: seq<Event>, items: seq<Item>, now: int, ttl: int, item: Item)
    requires InTime(events + later, now) && Committed(events, item.position)
    ensures item !in Offers(events + later, items, now, ttl)
  {
    var all := events + later;
    forall i | 0 <= i < |events| ensures all[i] == events[i] {}
    assert Committed(all, item.position);
    OfferedIff(all, items, now, ttl, item);
  }

  /** No item of the batch resolved the position. */
  predicate Unresolved(items: seq<Processed>, position: string) {
    forall j :: 0 <= j < |items| && items[j].position == position ==> !items[j].resolved
  }

  lemma {:induction false} UnresolvedKeepsVeto(items: seq<Processed>, position: string, before: Option<int>)
    requires Unresolved(items, position)
    ensures LastVetoIn(items, position, before) == before
  {
    if items != [] { UnresolvedKeepsVeto(items[1..], position, before); }
  }

  /** A position that was offered and not resolved is offered again at the next look that finds it. */
  lemma UnresolvedIsOfferedAgain(events: seq<Event>, items: seq<Item>, now: int, done: seq<Processed>,
                                 next: seq<Item>, later: int, ttl: int, item: Item)
    requires InTime(events, now) && now <= later && item in Offers(events, items, now, ttl)
    requires Unresolved(done, item.position) && item in next
    ensures item in Offers(events + [Looked(items, now)] + [Recorded(done)], next, later, ttl)
  {
    var looked := events + [Looked(items, now)];
    var all := looked + [Recorded(done)];
    OfferedIff(events, items, now, ttl, item);
    assert looked[..|looked| - 1] == events && all[..|all| - 1] == looked;
    CommittedAfter(looked, item.position);
    CommittedAfter(all, item.position);
    UnresolvedKeepsVeto(done, item.position, LastVeto(looked, item.position));
    OfferedIff(all, next, later, ttl, item);
  }
}
