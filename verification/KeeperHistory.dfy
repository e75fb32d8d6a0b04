/**
 What the registry's records and leaderboard say about its history. The history's facts are read off the list
 of calls alone, without the registry's cells.
 */
module KeeperHistory {
  import opened Core
  import opened Keepers

  // ----- the history, from the calls alone -----

  function LedgerAt(ledger: nat, actions: seq<Action>): nat {
    if actions == [] then ledger
    else
      var before, last := LedgerAt(ledger, actions[..|actions| - 1]), actions[|actions| - 1];
      if last.Tick? then before + last.ledgers else before
  }

  function TimeAt(now: nat, actions: seq<Action>): nat {
    if actions == [] then now
    else
      var before, last := TimeAt(now, actions[..|actions| - 1]), actions[|actions| - 1];
      if last.Tick? then before + last.seconds else before
  }

  /** A keeper's next harvest is recorded unless the count or the sum would leave its range. */
  predicate Countable(count: int, total: int, amount: int) { count < U64_MAX && IsI128(total + amount) }

  /** How many harvests of `a` were recorded, and what they yielded together. */
  function Harvests(actions: seq<Action>, a: Address): (int, int) {
    if actions == [] then (0, 0)
    else
      var (count, total) := Harvests(actions[..|actions| - 1], a);
      var last := actions[|actions| - 1];
      if last.HarvestRecord? && last.address == a && Countable(count, total, last.amount)
        then (count + 1, total + last.amount)
        else (count, total)
  }

  function HarvestCount(actions: seq<Action>, a: Address): int { Harvests(actions, a).0 }

  function HarvestTotal(actions: seq<Action>, a: Address): int { Harvests(actions, a).1 }

  /** The last call recorded a harvest of `a`. */
  predicate JustHarvested(actions: seq<Action>, a: Address)
    requires actions != []
  {
    HarvestCount(actions, a) != HarvestCount(actions[..|actions| - 1], a)
  }

  /** The ledger of the last recorded harvest of `a`; zero before the first. */
  function LastHarvestLedger(ledger: nat, actions: seq<Action>, a: Address): nat {
    if actions == [] then 0
    else
      var before := actions[..|actions| - 1];
      if JustHarvested(actions, a) then LedgerAt(ledger, before) else LastHarvestLedger(ledger, before, a)
  }

  /** The call enters `a`, if it has no record yet: a registration that finds room, or a harvest. */
  predicate Enters(listed: nat, call: Action, a: Address) {
    match call
    case Registration(address) => address == a && listed < 256
    case HarvestRecord(address, amount) => address == a && IsI128(amount)
    case Tick(_, _) => false
  }

  /** When `a` got its record, if it has one. */
  function FirstRecordAt(now: nat, actions: seq<Action>, a: Address): Option<nat> {
    if actions == [] then None
    else
      var before := actions[..|actions| - 1];
      if FirstRecordAt(now, before, a).Some? then FirstRecordAt(now, before, a)
      else if Enters(|Listing(now, before)|, actions[|actions| - 1], a) then Some(TimeAt(now, before))
      else None
  }

  /** The first 256 keepers to get a record, in that order. */
  function Listing(now: nat, actions: seq<Action>): seq<Address> {
    if actions == [] then []
    else
      var before, last := actions[..|actions| - 1], actions[|actions| - 1];
      var listed := Listing(now, before);
      if last.Tick? || |listed| >= 256 || FirstRecordAt(now, before, last.address).Some?
         || !Enters(|listed|, last, last.address)
      then listed
      else listed + [last.address]
  }

  /** The record the history gives `a`. */
  function RecordOf(ledger: nat, now: nat, actions: seq<Action>, a: Address): KeeperRecord
    requires FirstRecordAt(now, actions, a).Some?
  {
    KeeperRecord(a, HarvestCount(actions, a), HarvestTotal(actions, a), LastHarvestLedger(ledger, actions, a),
                 FirstRecordAt(now, actions, a).value)
  }

  // ----- the cells agree with it -----

  /** The registry's clock and list, and its cell for `a`, are what the history says. */
  predicate Agrees(s: KeeperState, ledger: nat, now: nat, actions: seq<Action>, a: Address) {
    && s.ledger == LedgerAt(ledger, actions) && s.now == TimeAt(now, actions) && s.list == Listing(now, actions)
    && (a in s.records <==> FirstRecordAt(now, actions, a).Some?)
    && (a in s.records ==> s.records[a] == RecordOf(ledger, now, actions, a))
    && (a !in s.records ==> Harvests(actions, a) == (0, 0) && LastHarvestLedger(ledger, actions, a) == 0)
  }

  lemma OneMoreCall(s: KeeperState, ledger: nat, now: nat, before: seq<Action>, call: Action, a: Address)
    requires SoundRegistry(s) && Agrees(s, ledger, now, before, a)
    requires !call.Tick? ==> Agrees(s, ledger, now, before, call.address)
    ensures Agrees(Step(s, call), ledger, now, before + [call], a)
  {
    var actions := before + [call];
    assert actions[..|actions| - 1] == before;
  }

  /**
   After every history a keeper's record holds the number and the sum of its recorded harvests, the ledger of the
   last of them and the time of its first record; and the list holds the first 256 keepers with one, in order.
   */
  lemma {:induction false} RecordsAreHistory(ledger: nat, now: nat, actions: seq<Action>, a: Address)
    ensures Agrees(Run(Initial(ledger, now), actions), ledger, now, actions, a)
  {
    if actions != [] {
      var before, call := actions[..|actions| - 1], actions[|actions| - 1];
      RegistryStaysSound(ledger, now, before);
      RecordsAreHistory(ledger, now, before, a);
      if !call.Tick? {
        RecordsAreHistory(ledger, now, before, call.address);
      }
      OneMoreCall(Run(Initial(ledger, now), before), ledger, now, before, call, a);
      assert actions == before + [call];
    }
  }

  /** `all` gives every listed keeper the record of its history, in order of entry. */
  predicate ListsHistory(ledger: nat, now: nat, actions: seq<Action>, all: seq<KeeperRecord>) {
    var listed := Listing(now, actions);
    && |all| == |listed|
    && forall i | 0 <= i < |listed| ::
         FirstRecordAt(now, actions, listed[i]).Some? && all[i] == RecordOf(ledger, now, actions, listed[i])
  }

  /**
   The leaderboard after any history: `top` returns the first min(limit, 20) places, or all when there are fewer,
   of the stable descending sort of the listed keepers by the sum of their recorded harvests.
   */
  lemma TopRanksHarvests(ledger: nat, now: nat, actions: seq<Action>, limit: nat)
    ensures var top := Top(Run(Initial(ledger, now), actions), limit);
            var places := if limit <= 20 then limit else 20;
            exists all, full ::
              && ListsHistory(ledger, now, actions, all) && IsStableSort(full, all)
              && |full| == |Listing(now, actions)|
              && top == if places <= |full| then full[..places] else full
  {
    var s := Run(Initial(ledger, now), actions);
    TopIsPrefixOfStableSort(ledger, now, actions, limit);
    var all, full :| && ListsRegistered(s, all) && IsStableSort(full, all)
                     && |full| == |s.list| && Top(s, limit) == Prefix(full, Limit(limit));
    RecordsAreHistory(ledger, now, actions, Address(0));
    forall i | 0 <= i < |s.list|
      ensures FirstRecordAt(now, actions, s.list[i]).Some?
      ensures all[i] == RecordOf(ledger, now, actions, s.list[i])
    {
      RecordsAreHistory(ledger, now, actions, s.list[i]);
    }
    assert ListsHistory(ledger, now, actions, all);
  }

  /** A registration goes through for a keeper already known or while there is room, and returns the record kept. */
  lemma RegistersExactlyWhen(ledger: nat, now: nat, actions: seq<Action>, a: Address)
    ensures var r := Register(Run(Initial(ledger, now), actions), a);
            && (r.Ok? <==> FirstRecordAt(now, actions, a).Some? || |Listing(now, actions)| < 256)
            && (r.Ok? ==> a in r.value.0.records && r.value.1 == r.value.0.records[a])
  {
    RecordsAreHistory(ledger, now, actions, a);
    RegistryStaysSound(ledger, now, actions);
  }

  // ----- two harvests against one -----

  const SMALL: Address := Address(1)
  const LARGE: Address := Address(2)

  /** A keeper that harvested 100 and then 5 ranks above one that harvested 104 at once. */
  lemma HarvestsAddUp()
    ensures var actions := [HarvestRecord(SMALL, 100), HarvestRecord(LARGE, 104), HarvestRecord(SMALL, 5)];
            Top(Run(Initial(0, 0), actions), 1) == [KeeperRecord(SMALL, 2, 105, 0, 0)]
  {
    var start, actions := Initial(0, 0),
      [HarvestRecord(SMALL, 100), HarvestRecord(LARGE, 104), HarvestRecord(SMALL, 5)];
    assert actions[..2][..1] == actions[..1] && actions[..1][..0] == [];
    var s1 := Step(start, actions[0]);
    var s2 := Step(s1, actions[1]);
    var s3 := Step(s2, actions[2]);
    assert Run(start, actions[..1]) == s1;
    assert Run(start, actions[..2]) == s2;
    assert Run(start, actions) == s3;
    TwoKeepers(s3);
  }

  lemma TwoKeepers(s: KeeperState)
    requires s.list == [SMALL, LARGE]
    requires SMALL in s.records && s.records[SMALL] == KeeperRecord(SMALL, 2, 105, 0, 0)
    requires LARGE in s.records && s.records[LARGE] == KeeperRecord(LARGE, 1, 104, 0, 0)
    ensures Top(s, 1) == [s.records[SMALL]]
  {
    var small, large := s.records[SMALL], s.records[LARGE];
    hide Ranking;
    assert s.list[..1] == [SMALL] && [SMALL][..0] == [];
    assert Registered(s, [SMALL]) == [small];
    assert Registered(s, s.list) == [small, large];
    RankedInOrder(small, large);
  }

  lemma RankedInOrder(x: KeeperRecord, y: KeeperRecord)
    requires x.totalYield >= y.totalYield
    ensures Ranking([x, y]) == [x, y]
  {
    InsertLast([], x);
    InsertLast([x], y);
    assert [x, y][..1] == [x] && [x][..0] == [];
    assert Ranking([x]) == Insert(Ranking([]), x);
    assert Ranking([x, y]) == Insert(Ranking([x]), y);
  }

  lemma InsertLast(board: seq<KeeperRecord>, r: KeeperRecord)
    requires board == [] || (|board| == 1 && board[0].totalYield >= r.totalYield)
    ensures Insert(board, r) == board + [r]
  {
    hide Insert;
    PlaceLast(board, r);
    InsertAtEnd(board, r);
  }

  lemma PlaceLast(board: seq<KeeperRecord>, r: KeeperRecord)
    requires board == [] || (|board| == 1 && board[0].totalYield >= r.totalYield)
    ensures Position(board, r) == |board|
  {
    if board != [] {
      assert board[1..] == [];
    }
  }

  lemma InsertAtEnd(board: seq<KeeperRecord>, r: KeeperRecord)
    requires Position(board, r) == |board|
    ensures Insert(board, r) == board + [r]
  {
    hide Position;
  }
}
