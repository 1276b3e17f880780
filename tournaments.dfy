/** The tournament store: every tournament with its fixed table of numbered slots,
    tournament creation, the join operation that books a slot and debits the entry
    fee, and the two read views the pages use (tournaments of one game, free slots). */
module Tournaments {
  import opened Common
  import opened Auth

  datatype GameType = FreeFire | Bgmi
  datatype Status = Upcoming | Ongoing | Completed

  /** One seat of a tournament; `None` stands for the source's `null`. */
  datatype Slot = Slot(number: int, playerId: Option<string>, playerName: Option<string>, gameId: Option<string>)

  /** `if (slot.playerId)`: JavaScript truthiness, so a slot whose player id is the empty
      string reads as free, exactly as a slot with no player does. */
  predicate IsTaken(s: Slot)
  {
    s.playerId.Some? && s.playerId.value != ""
  }

  /** `!slot.playerId`. */
  predicate IsFree(s: Slot)
  {
    !IsTaken(s)
  }

  /** The fields of a tournament that its creator supplies (everything but id and slots). */
  datatype TournamentData = TournamentData(
    name: string, gameType: GameType, prizePool: int, entryFee: int,
    totalSlots: int, date: string, time: string, status: Status)

  /** A tournament as a value: its id, its data and the current contents of its slots. */
  datatype Snapshot = Snapshot(id: string, data: TournamentData, slots: seq<Slot>)

  /** `Array.from({ length: totalSlots })` makes no slots for a negative length. */
  function SlotCount(totalSlots: int): nat
  {
    if totalSlots < 0 then 0 else totalSlots
  }

  /** The slot table of a new tournament: slots 1..N, nobody in them. */
  function FreshSlots(totalSlots: int): (r: seq<Slot>)
    ensures |r| == (if totalSlots < 0 then 0 else totalSlots)
    ensures forall k :: 0 <= k < |r| ==> r[k].number == k + 1
    ensures forall k :: 0 <= k < |r| ==> r[k].playerId.None? && r[k].playerName.None? && r[k].gameId.None?
  {
    seq(SlotCount(totalSlots), k => Slot(k + 1, None, None, None))
  }

  /** Slot `k` (0-based) carries number `k + 1`. */
  predicate Numbered(slots: seq<Slot>)
  {
    forall k :: 0 <= k < |slots| ==> slots[k].number == k + 1
  }

  /** `slots.some(slot => slot.playerId === userId)`: strict equality, no truthiness. */
  predicate HoldsSlot(slots: seq<Slot>, userId: string)
  {
    exists k :: 0 <= k < |slots| && slots[k].playerId == Some(userId)
  }

  /** No player id occupies two slots of the same tournament. */
  predicate OneSlotPerPlayer(slots: seq<Slot>)
  {
    forall i, j :: 0 <= i < j < |slots| && slots[i].playerId.Some? ==> slots[i].playerId != slots[j].playerId
  }

  /** What the store keeps true of every tournament it holds. */
  predicate WellFormed(t: Snapshot)
  {
    |t.slots| == SlotCount(t.data.totalSlots) && Numbered(t.slots) && OneSlotPerPlayer(t.slots)
  }

  /** `tournaments.findIndex(t => t.id === id)`: ids are not guaranteed unique, the first wins. */
  function FindTournament(ts: seq<Snapshot>, id: string): (r: Option<nat>)
    ensures r.Some? ==> r.value < |ts| && ts[r.value].id == id
    ensures r.Some? ==> forall k :: 0 <= k < r.value ==> ts[k].id != id
    ensures r.None? <==> forall k :: 0 <= k < |ts| ==> ts[k].id != id
  {
    FirstIndex(ts, (t: Snapshot) => t.id == id)
  }

  /** `slots.findIndex(s => s.number === n)`. */
  function FindSlot(slots: seq<Slot>, n: int): (r: Option<nat>)
    ensures r.Some? ==> r.value < |slots| && slots[r.value].number == n
    ensures r.None? <==> forall k :: 0 <= k < |slots| ==> slots[k].number != n
  {
    FirstIndex(slots, (s: Slot) => s.number == n)
  }

  /** In a numbered table, slot number `n` exists exactly for 1 <= n <= N, at index n - 1. */
  lemma FindSlotNumbered(slots: seq<Slot>, n: int)
    requires Numbered(slots)
    ensures FindSlot(slots, n) == if 1 <= n <= |slots| then Some(n - 1) else None
  {
    var r := FindSlot(slots, n);
    if 1 <= n <= |slots| {
      assert slots[n - 1].number == n;
    }
  }

  /** The toast a join attempt ends with; `Joined` carries the tournament and slot indices. */
  datatype JoinOutcome =
    | NoUser | TournamentNotFound | InvalidSlot | SlotTaken
    | InsufficientBalance | AlreadyRegistered
    | Joined(tournament: nat, slot: nat)

  /** The guard cascade of `joinTournament`, in the source's order; no guard looks at the
      tournament's status. */
  function DecideJoin(user: Option<User>, ts: seq<Snapshot>, tid: string, n: int): (r: JoinOutcome)
    ensures r == NoUser <==> user.None?
    ensures r == TournamentNotFound <==> user.Some? && forall k :: 0 <= k < |ts| ==> ts[k].id != tid
    ensures r.Joined? ==> r.tournament < |ts| && r.slot < |ts[r.tournament].slots|
    ensures r.Joined? ==>
      FindTournament(ts, tid) == Some(r.tournament) && FindSlot(ts[r.tournament].slots, n) == Some(r.slot)
    ensures r.Joined? ==>
      var t := ts[r.tournament];
      && user.Some? && t.id == tid && t.slots[r.slot].number == n
      && IsFree(t.slots[r.slot])
      && user.value.wallet >= t.data.entryFee
      && !HoldsSlot(t.slots, user.value.id)
  {
    if user.None? then NoUser
    else match FindTournament(ts, tid)
      case None => TournamentNotFound
      case Some(ti) => SlotGuards(user.value, ts[ti].slots, ts[ti].data.entryFee, ti, n)
  }

  /** The guards that follow once the tournament at index `ti` is found: the slot number,
      the slot's occupant, the balance against the fee, then an earlier registration. */
  function SlotGuards(u: User, slots: seq<Slot>, entryFee: int, ti: nat, n: int): (r: JoinOutcome)
    ensures r != NoUser && r != TournamentNotFound
    ensures r.Joined? ==> r.tournament == ti && FindSlot(slots, n) == Some(r.slot)
  {
    match FindSlot(slots, n)
    case None => InvalidSlot
    case Some(si) =>
      if IsTaken(slots[si]) then SlotTaken
      else if u.wallet < entryFee then InsufficientBalance
      else if HoldsSlot(slots, u.id) then AlreadyRegistered
      else Joined(ti, si)
  }

  /** The slot object written at a successful join: same number, the player's details. */
  function Claimed(s: Slot, userId: string, playerName: string, gameId: string): Slot
  {
    s.(playerId := Some(userId), playerName := Some(playerName), gameId := Some(gameId))
  }

  /** Tournament `t` with the player written into its slot at index `si`. */
  function ClaimSlot(t: Snapshot, si: nat, userId: string, playerName: string, gameId: string): (r: Snapshot)
    requires si < |t.slots|
    ensures r.id == t.id && r.data == t.data && |r.slots| == |t.slots|
    ensures forall k :: 0 <= k < |t.slots| && k != si ==> r.slots[k] == t.slots[k]
    ensures r.slots[si] == Slot(t.slots[si].number, Some(userId), Some(playerName), Some(gameId))
  {
    t.(slots := t.slots[si := Claimed(t.slots[si], userId, playerName, gameId)])
  }

  /** Claiming a slot for a player who holds none keeps the tournament well formed: the
      player then holds exactly one slot of it. */
  lemma ClaimKeepsWellFormed(t: Snapshot, si: nat, userId: string, playerName: string, gameId: string)
    requires WellFormed(t) && si < |t.slots| && !HoldsSlot(t.slots, userId)
    ensures WellFormed(ClaimSlot(t, si, userId, playerName, gameId))
  {
    var new_ := ClaimSlot(t, si, userId, playerName, gameId).slots;
    forall i, j | 0 <= i < j < |new_| && new_[i].playerId.Some?
      ensures new_[i].playerId != new_[j].playerId
    {
      if i == si {
        assert t.slots[j].playerId != Some(userId);
      } else if j == si {
        assert t.slots[i].playerId != Some(userId);
      }
    }
  }

  /** The tournaments after a join attempt that ended with `r`: only the chosen slot
      changes, and only on success. */
  function TournamentsAfter(user: Option<User>, ts: seq<Snapshot>, r: JoinOutcome,
                            playerName: string, gameId: string): seq<Snapshot>
  {
    match r
    case Joined(ti, si) =>
      if user.Some? && ti < |ts| && si < |ts[ti].slots|
      then ts[ti := ClaimSlot(ts[ti], si, user.value.id, playerName, gameId)]
      else ts
    case _ => ts
  }

  /** The signed-in user after a join attempt that ended with `r`: debited by the entry
      fee only on success. */
  function UserAfter(user: Option<User>, ts: seq<Snapshot>, r: JoinOutcome): Option<User>
  {
    match r
    case Joined(ti, _) => if ti < |ts| then Credited(user, -ts[ti].data.entryFee) else user
    case _ => user
  }

  function TournamentsAfterJoin(user: Option<User>, ts: seq<Snapshot>, tid: string, n: int,
                                playerName: string, gameId: string): seq<Snapshot>
  {
    TournamentsAfter(user, ts, DecideJoin(user, ts, tid, n), playerName, gameId)
  }

  function UserAfterJoin(user: Option<User>, ts: seq<Snapshot>, tid: string, n: int): Option<User>
  {
    UserAfter(user, ts, DecideJoin(user, ts, tid, n))
  }

  /** A failed join changes neither the tournaments nor the wallet. */
  lemma JoinFailureChangesNothing(user: Option<User>, ts: seq<Snapshot>, tid: string, n: int,
                                  playerName: string, gameId: string)
    requires !DecideJoin(user, ts, tid, n).Joined?
    ensures TournamentsAfterJoin(user, ts, tid, n, playerName, gameId) == ts
    ensures UserAfterJoin(user, ts, tid, n) == user
  {
  }

  /** A successful join writes (user id, player name, game id) into exactly the chosen slot,
      leaves every other slot and tournament as it was, and debits exactly the entry fee;
      a wallet that was not negative stays not negative. */
  lemma JoinSuccessEffect(user: Option<User>, ts: seq<Snapshot>, tid: string, n: int,
                          playerName: string, gameId: string)
    requires DecideJoin(user, ts, tid, n).Joined?
    ensures var ti, si := DecideJoin(user, ts, tid, n).tournament, DecideJoin(user, ts, tid, n).slot;
      var after := TournamentsAfterJoin(user, ts, tid, n, playerName, gameId);
      && |after| == |ts|
      && (forall i :: 0 <= i < |ts| && i != ti ==> after[i] == ts[i])
      && after[ti].id == ts[ti].id && after[ti].data == ts[ti].data
      && |after[ti].slots| == |ts[ti].slots|
      && (forall k :: 0 <= k < |ts[ti].slots| && k != si ==> after[ti].slots[k] == ts[ti].slots[k])
      && after[ti].slots[si] == Slot(n, Some(user.value.id), Some(playerName), Some(gameId))
      && UserAfterJoin(user, ts, tid, n) == Credited(user, -ts[ti].data.entryFee)
      && (user.value.wallet >= 0 ==> UserAfterJoin(user, ts, tid, n).value.wallet >= 0)
  {
  }

  /** A successful join keeps every tournament well formed: in particular the player, who
      held no slot of that tournament before, holds exactly one afterwards. */
  lemma {:induction false} JoinPreservesWellFormed(user: Option<User>, ts: seq<Snapshot>, tid: string, n: int,
                                                   playerName: string, gameId: string)
    requires forall i :: 0 <= i < |ts| ==> WellFormed(ts[i])
    ensures var after := TournamentsAfterJoin(user, ts, tid, n, playerName, gameId);
      |after| == |ts| && forall i :: 0 <= i < |after| ==> WellFormed(after[i])
  {
    var r := DecideJoin(user, ts, tid, n);
    if r.Joined? {
      ClaimKeepsWellFormed(ts[r.tournament], r.slot, user.value.id, playerName, gameId);
    }
  }

  /** `getTournamentsByGame(gameType)`: an order-preserving filter on the game. */
  function TournamentsByGame(ts: seq<Snapshot>, g: GameType): (r: seq<Snapshot>)
    ensures forall k :: 0 <= k < |r| ==> r[k] in ts && r[k].data.gameType == g
    ensures forall k :: 0 <= k < |ts| && ts[k].data.gameType == g ==> ts[k] in r
  {
    Filter(ts, GameIs(g))
  }

  /** Each game's list keeps the store's order. */
  lemma TournamentsByGameKeepsOrder(ts: seq<Snapshot>, g: GameType)
    ensures IsSubseq(TournamentsByGame(ts, g), ts)
  {
    FilterIsSubseq(ts, GameIs(g));
  }

  /** `t => t.gameType === g`. */
  function GameIs(g: GameType): Snapshot -> bool
  {
    (t: Snapshot) => t.data.gameType == g
  }

  /** `t => t.status === s`, the test the pages filter tournaments by. */
  function StatusIs(s: Status): Snapshot -> bool
  {
    (t: Snapshot) => t.data.status == s
  }

  /** `getAvailableSlots(id)`: the free slots, in order, of the first tournament with that id;
      an unknown id gives the empty list. */
  function AvailableSlots(ts: seq<Snapshot>, id: string): (r: seq<Slot>)
    ensures FindTournament(ts, id).None? ==> r == []
    ensures forall k :: 0 <= k < |r| ==> IsFree(r[k])
    ensures FindTournament(ts, id).Some? ==>
      var slots := ts[FindTournament(ts, id).value].slots;
      (forall k :: 0 <= k < |r| ==> r[k] in slots) &&
      (forall k :: 0 <= k < |slots| && IsFree(slots[k]) ==> slots[k] in r) &&
      IsSubseq(r, slots)
  {
    match FindTournament(ts, id)
    case None => []
    case Some(i) =>
      FilterIsSubseq(ts[i].slots, IsFree);
      Filter(ts[i].slots, IsFree)
  }

  /** `slots.filter(s => s.playerId).length`: the filled count the pages display. */
  function FilledCount(slots: seq<Slot>): (r: nat)
    ensures r <= |slots|
    ensures r == 0 <==> forall k :: 0 <= k < |slots| ==> IsFree(slots[k])
  {
    var taken := Filter(slots, IsTaken);
    assert taken != [] ==> IsTaken(taken[0]);
    |taken|
  }

  /** Every slot is either counted as filled or listed as available, never both. */
  lemma FilledPlusAvailable(slots: seq<Slot>)
    ensures FilledCount(slots) + |Filter(slots, IsFree)| == |slots|
  {
    FilterComplement(slots, IsTaken, IsFree);
  }

  /** A new tournament's slots are all free, numbered 1..N, with nobody registered. */
  lemma FreshSlotsAllFree(totalSlots: int)
    ensures |FreshSlots(totalSlots)| == SlotCount(totalSlots)
    ensures Numbered(FreshSlots(totalSlots)) && OneSlotPerPlayer(FreshSlots(totalSlots))
    ensures Filter(FreshSlots(totalSlots), IsFree) == FreshSlots(totalSlots)
    ensures FilledCount(FreshSlots(totalSlots)) == 0
  {
    var s := FreshSlots(totalSlots);
    FilterKeepsAll(s, IsFree);
    FilledPlusAvailable(s);
  }

  /** Creating a tournament under an id no earlier tournament has, then asking for its
      free slots, gives back all N slots numbered 1..N. */
  lemma AddThenAvailable(ts: seq<Snapshot>, id: string, data: TournamentData)
    requires FindTournament(ts, id).None?
    ensures AvailableSlots(ts + [Snapshot(id, data, FreshSlots(data.totalSlots))], id) == FreshSlots(data.totalSlots)
  {
    var ts' := ts + [Snapshot(id, data, FreshSlots(data.totalSlots))];
    assert forall k :: 0 <= k < |ts| ==> ts'[k] == ts[k];
    assert ts'[|ts|].id == id;
    assert FindTournament(ts', id) == Some(|ts|);
    FreshSlotsAllFree(data.totalSlots);
  }

  /** Two stores whose ids agree position by position resolve every id to the same index. */
  lemma FindTournamentSameIds(ts: seq<Snapshot>, us: seq<Snapshot>, id: string)
    requires |ts| == |us| && forall k :: 0 <= k < |ts| ==> ts[k].id == us[k].id
    ensures FindTournament(ts, id) == FindTournament(us, id)
  {
  }

  /** A successful join by a player with a non-empty id takes exactly one slot out of the
      tournament's available list. */
  lemma JoinTakesOneFreeSlot(user: Option<User>, ts: seq<Snapshot>, tid: string, n: int,
                             playerName: string, gameId: string)
    requires DecideJoin(user, ts, tid, n).Joined? && user.value.id != ""
    ensures |AvailableSlots(TournamentsAfterJoin(user, ts, tid, n, playerName, gameId), tid)|
         == |AvailableSlots(ts, tid)| - 1
  {
    var r := DecideJoin(user, ts, tid, n);
    var ti, si := r.tournament, r.slot;
    var after := TournamentsAfterJoin(user, ts, tid, n, playerName, gameId);
    var x := Claimed(ts[ti].slots[si], user.value.id, playerName, gameId);
    FindTournamentSameIds(ts, after, tid);
    assert FindTournament(ts, tid) == Some(ti);
    assert after[ti].slots == ts[ti].slots[si := x];
    FilterDropsUpdated(ts[ti].slots, si, x, IsFree);
  }

  /** No double booking: once a player with a non-empty id has joined a slot, every later
      attempt on that slot number of that tournament, by anyone signed in, is turned away
      as taken. */
  lemma JoinedSlotIsTaken(user: Option<User>, ts: seq<Snapshot>, tid: string, n: int,
                          playerName: string, gameId: string, other: User)
    requires DecideJoin(user, ts, tid, n).Joined? && user.value.id != ""
    ensures DecideJoin(Some(other), TournamentsAfterJoin(user, ts, tid, n, playerName, gameId), tid, n) == SlotTaken
  {
    var r := DecideJoin(user, ts, tid, n);
    var ti, si := r.tournament, r.slot;
    var after := TournamentsAfterJoin(user, ts, tid, n, playerName, gameId);
    FindTournamentSameIds(ts, after, tid);
    FindSlotSameNumbers(ts[ti].slots, after[ti].slots, n);
  }

  /** Two slot tables whose numbers agree position by position resolve every number alike. */
  lemma FindSlotSameNumbers(a: seq<Slot>, b: seq<Slot>, n: int)
    requires |a| == |b| && forall k :: 0 <= k < |a| ==> a[k].number == b[k].number
    ensures FindSlot(a, n) == FindSlot(b, n)
  {
  }

  /** Single registration: after a successful join, the same player (now debited) can
      never join that tournament again; whenever the slot asked for exists, is free and the
      remaining balance covers the fee, the refusal is "already registered". */
  lemma RejoinRefused(user: Option<User>, ts: seq<Snapshot>, tid: string, n: int,
                      playerName: string, gameId: string, m: int)
    requires DecideJoin(user, ts, tid, n).Joined?
    ensures var user' := UserAfterJoin(user, ts, tid, n);
      var after := TournamentsAfterJoin(user, ts, tid, n, playerName, gameId);
      var r' := DecideJoin(user', after, tid, m);
      && !r'.Joined?
      && (r' != InvalidSlot && r' != SlotTaken && r' != InsufficientBalance ==> r' == AlreadyRegistered)
  {
    var r := DecideJoin(user, ts, tid, n);
    var ti, si := r.tournament, r.slot;
    var after := TournamentsAfterJoin(user, ts, tid, n, playerName, gameId);
    var user' := UserAfterJoin(user, ts, tid, n);
    FindTournamentSameIds(ts, after, tid);
    assert user'.value.id == user.value.id;
    assert after[ti].slots[si].playerId == Some(user.value.id);
    assert HoldsSlot(after[ti].slots, user'.value.id);
  }

  /** The status of a tournament plays no part in whether a join succeeds. */
  lemma JoinIgnoresStatus(user: Option<User>, ts: seq<Snapshot>, i: nat, s: Status, tid: string, n: int)
    requires i < |ts|
    ensures DecideJoin(user, ts[i := ts[i].(data := ts[i].data.(status := s))], tid, n)
         == DecideJoin(user, ts, tid, n)
  {
    var us := ts[i := ts[i].(data := ts[i].data.(status := s))];
    SameGuards(user, ts, us, tid, n);
  }

  /** The guards read only the ids, the slot tables and the entry fees. */
  lemma SameGuards(user: Option<User>, ts: seq<Snapshot>, us: seq<Snapshot>, tid: string, n: int)
    requires |ts| == |us|
    requires forall k :: 0 <= k < |ts| ==>
      ts[k].id == us[k].id && ts[k].slots == us[k].slots && ts[k].data.entryFee == us[k].data.entryFee
    ensures DecideJoin(user, us, tid, n) == DecideJoin(user, ts, tid, n)
  {
    FindTournamentSameIds(ts, us, tid);
    var found := FindTournament(ts, tid);
    if found.Some? {
      var ti := found.value;
      assert us[ti].slots == ts[ti].slots && us[ti].data.entryFee == ts[ti].data.entryFee;
    }
  }

  /** The cascade once the tournament is found, outcome by outcome: a taken slot is
      reported before the balance is looked at, and a short balance before an earlier
      registration is. */
  lemma JoinGuardOrder(u: User, ts: seq<Snapshot>, tid: string, n: int)
    requires FindTournament(ts, tid).Some?
    ensures var t := ts[FindTournament(ts, tid).value];
      var r := DecideJoin(Some(u), ts, tid, n);
      && (r == InvalidSlot <==> FindSlot(t.slots, n).None?)
      && (FindSlot(t.slots, n).Some? ==>
            var s := t.slots[FindSlot(t.slots, n).value];
            && (r == SlotTaken <==> IsTaken(s))
            && (r == InsufficientBalance <==> IsFree(s) && u.wallet < t.data.entryFee)
            && (r == AlreadyRegistered <==>
                  IsFree(s) && u.wallet >= t.data.entryFee && HoldsSlot(t.slots, u.id))
            && (r.Joined? <==>
                  IsFree(s) && u.wallet >= t.data.entryFee && !HoldsSlot(t.slots, u.id)))
  {
  }

  /** A successful join by a player with a non-empty id raises the tournament's filled
      count by exactly one. */
  lemma JoinFillsOneSlot(user: Option<User>, ts: seq<Snapshot>, tid: string, n: int,
                         playerName: string, gameId: string)
    requires DecideJoin(user, ts, tid, n).Joined? && user.value.id != ""
    ensures var ti := DecideJoin(user, ts, tid, n).tournament;
      FilledCount(TournamentsAfterJoin(user, ts, tid, n, playerName, gameId)[ti].slots)
        == FilledCount(ts[ti].slots) + 1
  {
    var r := DecideJoin(user, ts, tid, n);
    var ti, si := r.tournament, r.slot;
    var before := ts[ti].slots;
    var x := Claimed(before[si], user.value.id, playerName, gameId);
    var after := TournamentsAfterJoin(user, ts, tid, n, playerName, gameId)[ti].slots;
    assert after == before[si := x];
    FilterDropsUpdated(before, si, x, IsFree);
    FilledPlusAvailable(before);
    FilledPlusAvailable(after);
  }

  /** A tournament whose slot table is updated in place. Its other fields never change. */
  class Tournament {
    const id: string
    const data: TournamentData
    const slots: array<Slot>

    /** The `newTournament` object of `addTournament`. */
    constructor (id: string, data: TournamentData)
      ensures this.id == id && this.data == data
      ensures fresh(slots) && slots[..] == FreshSlots(data.totalSlots)
    {
      this.id := id;
      this.data := data;
      slots := new Slot[SlotCount(data.totalSlots)](k => Slot(k + 1, None, None, None));
    }

    function Value(): (r: Snapshot)
      reads slots
      ensures r.id == id && r.data == data && r.slots == slots[..]
    {
      Snapshot(id, data, slots[..])
    }
  }

  /** The tournament context's state: the list of tournaments. */
  class TournamentStore {
    var tournaments: seq<Tournament>

    /** The slot arrays the store's tournaments own. */
    function SlotArrays(): set<array<Slot>>
      reads this
    {
      set t | t in tournaments :: t.slots
    }

    /** The tournaments as values. */
    function Contents(): (r: seq<Snapshot>)
      reads this, SlotArrays()
      ensures |r| == |tournaments|
      ensures forall i :: 0 <= i < |tournaments| ==> r[i] == tournaments[i].Value()
    {
      seq(|tournaments|, i requires 0 <= i < |tournaments| reads this, SlotArrays() => tournaments[i].Value())
    }

    /** No two tournaments share a slot array, and every tournament is well formed. */
    ghost predicate Valid()
      reads this, SlotArrays()
    {
      && (forall i, j :: 0 <= i < j < |tournaments| ==> tournaments[i].slots != tournaments[j].slots)
      && forall i :: 0 <= i < |Contents()| ==> WellFormed(Contents()[i])
    }

    constructor ()
      ensures Valid() && tournaments == []
    {
      tournaments := [];
    }

    /** `addTournament(data)`: appends one tournament with a fresh table of N free slots and
        leaves every existing tournament as it was. */
    method AddTournament(id: string, data: TournamentData)
      requires Valid()
      modifies this
      ensures Valid()
      ensures Contents() == old(Contents()) + [Snapshot(id, data, FreshSlots(data.totalSlots))]
    {
      ghost var before := Contents();
      assert forall i :: 0 <= i < |before| ==> WellFormed(before[i]);
      var t := new Tournament(id, data);
      tournaments := tournaments + [t];
      assert Contents() == before + [t.Value()];
      FreshSlotsAllFree(data.totalSlots);
      assert WellFormed(t.Value());
    }

    /** `joinTournament(tournamentId, slotNumber, playerName, gameId)` for the signed-in user
        of `session`: runs the guard cascade and, on success, writes the player into the
        slot in place and debits the entry fee through `updateWallet`. */
    method JoinTournament(session: Session, tournamentId: string, slotNumber: int,
                          playerName: string, gameId: string)
      returns (ok: bool, outcome: JoinOutcome)
      requires Valid()
      modifies session, SlotArrays()
      ensures Valid() && tournaments == old(tournaments)
      ensures outcome == DecideJoin(old(session.user), old(Contents()), tournamentId, slotNumber)
      ensures ok <==> outcome.Joined?
      ensures Contents() == TournamentsAfter(old(session.user), old(Contents()), outcome, playerName, gameId)
      ensures session.user == UserAfter(old(session.user), old(Contents()), outcome)
    {
      ghost var before, user := Contents(), session.user;
      outcome := CheckJoin(session.user, tournamentId, slotNumber);
      assert Contents() == before && session.user == user;
      ok := outcome.Joined?;
      if ok {
        Claim(session, outcome, playerName, gameId);
      }
    }

    /** The guards of `joinTournament`, in order, each ending the attempt with its toast;
        nothing changes while they run. */
    method CheckJoin(user: Option<User>, tournamentId: string, slotNumber: int) returns (outcome: JoinOutcome)
      ensures outcome == DecideJoin(user, Contents(), tournamentId, slotNumber)
    {
      if user.None? {
        return NoUser;
      }
      var found := FindTournament(Contents(), tournamentId);
      if found.None? {
        return TournamentNotFound;
      }
      var ti := found.value;
      var t := tournaments[ti];
      var slotIndex := FindSlot(t.slots[..], slotNumber);
      if slotIndex.None? {
        return InvalidSlot;
      }
      var si := slotIndex.value;
      if IsTaken(t.slots[si]) {
        return SlotTaken;
      }
      if user.value.wallet < t.data.entryFee {
        return InsufficientBalance;
      }
      if HoldsSlot(t.slots[..], user.value.id) {
        return AlreadyRegistered;
      }
      return Joined(ti, si);
    }

    /** The success branch of `joinTournament`: the signed-in player is written into slot
        `si` of tournament `ti`, in place, and the entry fee is debited. */
    method Claim(session: Session, outcome: JoinOutcome, playerName: string, gameId: string)
      requires Valid() && outcome.Joined?
      requires outcome.tournament < |tournaments| && outcome.slot < tournaments[outcome.tournament].slots.Length
      requires session.user.Some? && !HoldsSlot(tournaments[outcome.tournament].slots[..], session.user.value.id)
      modifies session, tournaments[outcome.tournament].slots
      ensures Valid() && tournaments == old(tournaments)
      ensures Contents() == TournamentsAfter(old(session.user), old(Contents()), outcome, playerName, gameId)
      ensures session.user == UserAfter(old(session.user), old(Contents()), outcome)
    {
      ghost var before := Contents();
      var ti, si := outcome.tournament, outcome.slot;
      var t := tournaments[ti];
      t.slots[si] := Claimed(t.slots[si], session.user.value.id, playerName, gameId);
      session.UpdateWallet(-t.data.entryFee);
      forall i | 0 <= i < |tournaments| && i != ti
        ensures Contents()[i] == before[i]
      {
        assert tournaments[i].slots != t.slots;
      }
      ClaimKeepsWellFormed(before[ti], si, old(session.user).value.id, playerName, gameId);
      assert Contents()[ti] == ClaimSlot(before[ti], si, old(session.user).value.id, playerName, gameId);
    }
  }
}
