/**
 The keeper registry and leaderboard. `top` keeps a short list sorted by inserting each record and
 dropping the last when the list is too long; it is proved to return a prefix of the full stable sort.
 */
module Keepers {
  import opened Core

  const MAX_REGISTERED_KEEPERS: nat := 256
  const MAX_LEADERBOARD_LIMIT: nat := 20

  datatype KeeperRecord = KeeperRecord(
    address: Address,
    harvestCount: int,
    totalYield: int,
    lastHarvestLedger: nat,
    registeredAt: nat)

  datatype KeeperState = KeeperState(
    list: seq<Address>,
    records: map<Address, KeeperRecord>,
    ledger: nat,
    now: nat)

  function Initial(ledger: nat, now: nat): KeeperState { KeeperState([], map[], ledger, now) }

  function Fresh(s: KeeperState, a: Address): KeeperRecord { KeeperRecord(a, 0, 0, 0, s.now) }

  function Register(s: KeeperState, a: Address): Result<(KeeperState, KeeperRecord)> {
    if a in s.records then Ok((s, s.records[a]))
    else
      :- Need(a in s.list || |s.list| < MAX_REGISTERED_KEEPERS, InvalidAddress);
      var list := if a in s.list then s.list else s.list + [a];
      Ok((s.(list := list, records := s.records[a := Fresh(s, a)]), Fresh(s, a)))
  }

  /** The counter is a u64: it fails rather than wrap. */
  function RecordHarvest(s: KeeperState, a: Address, amount: int): Result<(KeeperState, ())> {
    var known := a in s.records;
    var record := if known then s.records[a] else Fresh(s, a);
    var list := if !known && a !in s.list && |s.list| < MAX_REGISTERED_KEEPERS then s.list + [a] else s.list;
    :- Need(record.harvestCount < U64_MAX, MathOverflow);
    var total :- CheckedAdd(record.totalYield, amount);
    var updated := record.(harvestCount := record.harvestCount + 1, totalYield := total, lastHarvestLedger := s.ledger);
    Ok((s.(list := list, records := s.records[a := updated]), ()))
  }

  // ----- the leaderboard, by definition -----

  /** The records of all registered keepers, in registration order. */
  function Registered(s: KeeperState, list: seq<Address>): seq<KeeperRecord> {
    if list == [] then []
    else
      var rest := Registered(s, list[..|list| - 1]);
      var last := list[|list| - 1];
      if last in s.records then rest + [s.records[last]] else rest
  }

  /** Where a record goes: before the first one that yielded strictly less. */
  function Position(board: seq<KeeperRecord>, r: KeeperRecord): nat
    ensures Position(board, r) <= |board|
  {
    if board == [] then 0
    else if board[0].totalYield < r.totalYield then 0
    else 1 + Position(board[1..], r)
  }

  function Insert(board: seq<KeeperRecord>, r: KeeperRecord): seq<KeeperRecord> {
    board[..Position(board, r)] + [r] + board[Position(board, r)..]
  }

  /** The full ranking: insert every record, first registered first. */
  function Ranking(records: seq<KeeperRecord>): seq<KeeperRecord> {
    if records == [] then [] else Insert(Ranking(records[..|records| - 1]), records[|records| - 1])
  }

  function Prefix<T>(xs: seq<T>, n: nat): seq<T> { if n <= |xs| then xs[..n] else xs }

  function Limit(limit: nat): nat { if limit <= MAX_LEADERBOARD_LIMIT then limit else MAX_LEADERBOARD_LIMIT }

  function Top(s: KeeperState, limit: nat): seq<KeeperRecord> {
    Prefix(Ranking(Registered(s, s.list)), Limit(limit))
  }

  // ----- the ranking is the stable descending sort -----

  predicate Descending(board: seq<KeeperRecord>) {
    forall i, j | 0 <= i < j < |board| :: board[i].totalYield >= board[j].totalYield
  }

  /** The records with one particular yield, in order. */
  function WithYield(board: seq<KeeperRecord>, y: int): seq<KeeperRecord> {
    if board == [] then []
    else
      var rest := WithYield(board[..|board| - 1], y);
      if board[|board| - 1].totalYield == y then rest + [board[|board| - 1]] else rest
  }

  lemma {:induction false} PositionSplits(board: seq<KeeperRecord>, r: KeeperRecord)
    requires Descending(board)
    ensures forall i | 0 <= i < Position(board, r) :: board[i].totalYield >= r.totalYield
    ensures forall i | Position(board, r) <= i < |board| :: board[i].totalYield < r.totalYield
  {
    if board != [] && board[0].totalYield >= r.totalYield {
      var rest := board[1..];
      PositionSplits(rest, r);
      forall i | 0 <= i < |board| ensures i > 0 ==> board[i] == rest[i - 1] {
      }
    }
  }

  lemma InsertKeepsDescending(board: seq<KeeperRecord>, r: KeeperRecord)
    requires Descending(board)
    ensures Descending(Insert(board, r))
  {
    PositionSplits(board, r);
  }

  lemma {:induction false} WithYieldConcat(a: seq<KeeperRecord>, b: seq<KeeperRecord>, y: int)
    ensures WithYield(a + b, y) == WithYield(a, y) + WithYield(b, y)
  {
    if b == [] {
      assert a + b == a;
    } else {
      var n := |b| - 1;
      assert (a + b)[..|a + b| - 1] == a + b[..n];
      WithYieldConcat(a, b[..n], y);
    }
  }

  lemma {:induction false} NoneWithYield(board: seq<KeeperRecord>, y: int)
    requires forall i | 0 <= i < |board| :: board[i].totalYield != y
    ensures WithYield(board, y) == []
  {
    if board != [] {
      NoneWithYield(board[..|board| - 1], y);
    }
  }

  /** A later record goes after every equal one, and disturbs no other yield. */
  lemma InsertIsStable(board: seq<KeeperRecord>, r: KeeperRecord, y: int)
    requires Descending(board)
    ensures WithYield(Insert(board, r), y) == WithYield(board, y) + (if r.totalYield == y then [r] else [])
  {
    var p := Position(board, r);
    PositionSplits(board, r);
    WithYieldConcat(board[..p] + [r], board[p..], y);
    WithYieldConcat(board[..p], [r], y);
    WithYieldConcat(board[..p], board[p..], y);
    assert board[..p] + board[p..] == board;
    assert [r][..0] == [];
    if r.totalYield == y {
      NoneWithYield(board[p..], y);
    }
  }

  /** The ranking is sorted, a permutation, and stable: together, the stable descending sort. */
  lemma {:induction false} RankingIsStableSort(records: seq<KeeperRecord>)
    ensures Descending(Ranking(records))
    ensures multiset(Ranking(records)) == multiset(records)
    ensures forall y: int :: WithYield(Ranking(records), y) == WithYield(records, y)
  {
    if records != [] {
      var shorter, last := records[..|records| - 1], records[|records| - 1];
      RankingIsStableSort(shorter);
      var board := Ranking(shorter);
      InsertKeepsDescending(board, last);
      assert records == shorter + [last];
      assert board[..Position(board, last)] + board[Position(board, last)..] == board;
      forall y: int ensures WithYield(Ranking(records), y) == WithYield(records, y) {
        InsertIsStable(board, last, y);
      }
    }
  }

  // ----- the bounded loop is a prefix of the full ranking -----

  lemma {:induction false} PositionInPrefix(board: seq<KeeperRecord>, r: KeeperRecord, n: nat)
    requires n <= |board|
    ensures Position(board[..n], r) == if Position(board, r) <= n then Position(board, r) else n
  {
    if n > 0 && board[0].totalYield >= r.totalYield {
      assert board[..n][1..] == board[1..][..n - 1];
      PositionInPrefix(board[1..], r, n - 1);
    }
  }

  /** One pass of the loop: insert if it ranks within the limit, then drop the overflow. */
  function BoundedInsert(board: seq<KeeperRecord>, r: KeeperRecord, limit: nat): seq<KeeperRecord> {
    if Position(board, r) < limit then Prefix(Insert(board, r), limit) else board
  }

  lemma BoundedInsertIsPrefix(full: seq<KeeperRecord>, r: KeeperRecord, limit: nat)
    ensures BoundedInsert(Prefix(full, limit), r, limit) == Prefix(Insert(full, r), limit)
  {
    if limit <= |full| {
      PositionInPrefix(full, r, limit);
      var p := Position(full, r);
      if p < limit {
        assert Insert(full[..limit], r) == full[..p] + [r] + full[p..limit];
        assert Prefix(Insert(full[..limit], r), limit) == Prefix(Insert(full, r), limit);
      }
    }
  }

  // ----- the registry over runs -----

  datatype Action =
    | Registration(address: Address)
    | HarvestRecord(address: Address, amount: int)
    | Tick(ledgers: nat, seconds: nat)

  function Step(s: KeeperState, a: Action): KeeperState {
    match a
    case Registration(address) => var r := Register(s, address); if r.Ok? then r.value.0 else s
    case HarvestRecord(address, amount) => var r := RecordHarvest(s, address, amount); if r.Ok? then r.value.0 else s
    case Tick(ledgers, seconds) => s.(ledger := s.ledger + ledgers, now := s.now + seconds)
  }

  function Run(s: KeeperState, actions: seq<Action>): KeeperState {
    if actions == [] then s else Step(Run(s, actions[..|actions| - 1]), actions[|actions| - 1])
  }

  predicate SoundRegistry(s: KeeperState) {
    && (forall i, j | 0 <= i < j < |s.list| :: s.list[i] != s.list[j])
    && |s.list| <= MAX_REGISTERED_KEEPERS
    && (forall a | a in s.list :: a in s.records)
    && (forall a | a in s.records :: s.records[a].address == a)
  }

  lemma {:induction false} RegistryStaysSound(ledger: nat, now: nat, actions: seq<Action>)
    ensures SoundRegistry(Run(Initial(ledger, now), actions))
  {
    if actions != [] {
      RegistryStaysSound(ledger, now, actions[..|actions| - 1]);
    }
  }

  lemma {:induction false} RegisteredAll(s: KeeperState, list: seq<Address>)
    requires forall a | a in list :: a in s.records
    ensures |Registered(s, list)| == |list|
    ensures forall i | 0 <= i < |list| :: Registered(s, list)[i] == s.records[list[i]]
  {
    if list != [] {
      RegisteredAll(s, list[..|list| - 1]);
    }
  }

  /** The records of all registered keepers, one per registration, in order. */
  predicate ListsRegistered(s: KeeperState, all: seq<KeeperRecord>) {
    |all| == |s.list| && forall i | 0 <= i < |s.list| :: s.list[i] in s.records && all[i] == s.records[s.list[i]]
  }

  /** `full` is the stable descending sort of `all`: sorted, a permutation, equal yields in their old order. */
  ghost predicate IsStableSort(full: seq<KeeperRecord>, all: seq<KeeperRecord>) {
    Descending(full) && multiset(full) == multiset(all) && forall y: int :: WithYield(full, y) == WithYield(all, y)
  }

  lemma SoundTop(s: KeeperState, limit: nat)
    requires SoundRegistry(s)
    ensures exists all, full ::
              && ListsRegistered(s, all) && IsStableSort(full, all)
              && |full| == |s.list| && Top(s, limit) == Prefix(full, Limit(limit))
  {
    var all := Registered(s, s.list);
    var full := Ranking(all);
    RegisteredAll(s, s.list);
    RankingIsStableSort(all);
    assert |full| == |multiset(full)| == |multiset(all)| == |all|;
    assert ListsRegistered(s, all) && IsStableSort(full, all);
  }

  /**
   The leaderboard after any history: `top` lists the first min(limit, 20) places, or all when there are
   fewer, of the stable descending sort, by yield harvested, of the records of all registered keepers.
   */
  lemma TopIsPrefixOfStableSort(ledger: nat, now: nat, actions: seq<Action>, limit: nat)
    ensures var s := Run(Initial(ledger, now), actions);
            exists all, full ::
              && ListsRegistered(s, all) && IsStableSort(full, all)
              && |full| == |s.list| && Top(s, limit) == Prefix(full, Limit(limit))
  {
    RegistryStaysSound(ledger, now, actions);
    SoundTop(Run(Initial(ledger, now), actions), limit);
  }
}

/** The registry over the contract's storage. */
module KeeperContract {
  import opened Core
  import K = Keepers

  ghost predicate Commits<T>(before: K.KeeperState, after: K.KeeperState, r: Result<T>,
                             spec: Result<(K.KeeperState, T)>) {
    match spec
    case Ok(p) => r == Ok(p.1) && after == p.0
    case Err(e) => r == Err(e) && after == before
  }

  class Registry {
    var cells: K.KeeperState

    constructor (ledger: nat, now: nat)
      ensures cells == K.Initial(ledger, now)
    {
      cells := K.Initial(ledger, now);
    }

    method Register(a: Address) returns (r: Result<K.KeeperRecord>)
      modifies this
      ensures Commits(old(cells), cells, r, K.Register(old(cells), a))
    {
      if a in cells.records { return Ok(cells.records[a]); }
      if a !in cells.list {
        if |cells.list| >= K.MAX_REGISTERED_KEEPERS { return Err(InvalidAddress); }
        cells := cells.(list := cells.list + [a]);
      }
      var record := K.KeeperRecord(a, 0, 0, 0, cells.now);
      cells := cells.(records := cells.records[a := record]);
      return Ok(record);
    }

    method RecordHarvest(a: Address, amount: int) returns (r: Result<()>)
      modifies this
      ensures Commits(old(cells), cells, r, K.RecordHarvest(old(cells), a, amount))
    {
      var before := cells;
      var record;
      if a in cells.records {
        record := cells.records[a];
      } else {
        if a !in cells.list && |cells.list| < K.MAX_REGISTERED_KEEPERS {
          cells := cells.(list := cells.list + [a]);
        }
        record := K.KeeperRecord(a, 0, 0, 0, cells.now);
      }
      var total := CheckedAdd(record.totalYield, amount);
      if record.harvestCount >= U64_MAX || total.Err? {
        cells := before;
        return Err(MathOverflow);
      }
      record := record.(harvestCount := record.harvestCount + 1);
      record := record.(totalYield := total.value);
      record := record.(lastHarvestLedger := cells.ledger);
      cells := cells.(records := cells.records[a := record]);
      return Ok(());
    }

    method Top(limit: nat) returns (result: seq<K.KeeperRecord>)
      ensures result == K.Top(cells, limit)
    {
      var bound := if limit <= K.MAX_LEADERBOARD_LIMIT then limit else K.MAX_LEADERBOARD_LIMIT;
      result := [];
      for i := 0 to |cells.list|
        invariant result == K.Prefix(K.Ranking(K.Registered(cells, cells.list[..i])), bound)
      {
        assert cells.list[..i + 1][..i] == cells.list[..i];
        var address := cells.list[i];
        if address in cells.records {
          var record := cells.records[address];
          ghost var before := K.Registered(cells, cells.list[..i]);
          assert (before + [record])[..|before|] == before;
          K.BoundedInsertIsPrefix(K.Ranking(before), record, bound);
          result := InsertBounded(result, record, bound);
        }
      }
      assert cells.list[..|cells.list|] == cells.list;
    }

    /** The body of the leaderboard loop: find the place, insert, drop the overflow. */
    static method InsertBounded(board: seq<K.KeeperRecord>, record: K.KeeperRecord, limit: nat)
      returns (result: seq<K.KeeperRecord>)
      requires |board| <= limit
      ensures result == K.BoundedInsert(board, record, limit)
    {
      var index := 0;
      while index < |board|
        invariant 0 <= index <= |board|
        invariant K.Position(board, record) == index + K.Position(board[index..], record)
      {
        if board[index].totalYield < record.totalYield {
          break;
        }
        assert board[index..][1..] == board[index + 1..];
        index := index + 1;
      }
      result := board;
      if index < limit {
        result := board[..index] + [record] + board[index..];
        if |result| > limit {
          result := result[..|result| - 1];
        }
      }
    }
  }
}
