/** The tournament page: the viewer's own slot, the slot grid's click guard, the join
    dialog and its confirm button, and the "Add Money" prompt. */
module TournamentDetail {
  import opened Common
  import opened Auth
  import opened Tournaments

  /** `user ? slots.find(slot => slot.playerId === user.id) : null`. */
  function UserSlot(user: Option<User>, slots: seq<Slot>): (r: Option<Slot>)
    ensures user.None? ==> r.None?
    ensures user.Some? ==> (r.Some? <==> HoldsSlot(slots, user.value.id))
    ensures r.Some? ==> r.value in slots && r.value.playerId == Some(user.value.id)
  {
    if user.None? then None
    else match FirstIndex(slots, (s: Slot) => s.playerId == Some(user.value.id))
      case None => None
      case Some(k) => Some(slots[k])
  }

  /** After a successful join the page shows the player as registered, in the slot just
      booked, with the name and game id they entered. */
  lemma JoinThenUserSlot(user: Option<User>, ts: seq<Snapshot>, tid: string, n: int,
                         playerName: string, gameId: string)
    requires DecideJoin(user, ts, tid, n).Joined?
    ensures var ti := DecideJoin(user, ts, tid, n).tournament;
      var after := TournamentsAfterJoin(user, ts, tid, n, playerName, gameId);
      UserSlot(UserAfterJoin(user, ts, tid, n), after[ti].slots)
        == Some(Slot(n, Some(user.value.id), Some(playerName), Some(gameId)))
  {
    var r := DecideJoin(user, ts, tid, n);
    var ti, si := r.tournament, r.slot;
    var after := TournamentsAfterJoin(user, ts, tid, n, playerName, gameId);
    var user' := UserAfterJoin(user, ts, tid, n);
    var slots := after[ti].slots;
    assert user'.value.id == user.value.id;
    forall k | 0 <= k < |slots| && k != si
      ensures slots[k].playerId != Some(user.value.id)
    {
      assert slots[k] == ts[ti].slots[k];
    }
    var found := FirstIndex(slots, (s: Slot) => s.playerId == Some(user'.value.id));
    assert slots[si].playerId == Some(user'.value.id);
    assert found == Some(si);
  }

  /** What a click on a slot card does. */
  datatype ClickEffect = Ignored | LoginRequired | OpenDialog(slotNumber: int)

  /** `isAvailable && status === 'upcoming' ? handleSlotSelect(slot.number) : null`, where
      `handleSlotSelect` sends a visitor who is not signed in to the login page. */
  function SlotClick(user: Option<User>, slot: Slot, status: Status): (r: ClickEffect)
    ensures r.OpenDialog? <==> user.Some? && IsFree(slot) && status == Upcoming
    ensures r.OpenDialog? ==> r.slotNumber == slot.number
    ensures r == LoginRequired <==> user.None? && IsFree(slot) && status == Upcoming
    ensures r == Ignored <==> IsTaken(slot) || status != Upcoming
  {
    if !(IsFree(slot) && status == Upcoming) then Ignored
    else if user.None? then LoginRequired
    else OpenDialog(slot.number)
  }

  /** `!selectedSlot || !playerName || !gameId`: slot 0, like no slot, counts as missing. */
  function MissingInfo(selectedSlot: Option<int>, playerName: string, gameId: string): (r: bool)
    ensures !r <==> selectedSlot.Some? && selectedSlot.value != 0 && |playerName| > 0 && |gameId| > 0
  {
    selectedSlot.None? || selectedSlot.value == 0 || playerName == "" || gameId == ""
  }

  /** `user && user.wallet < entryFee`: the page offers "Add Money" instead of "Select Slot".
      The label is rendered only in the panel shown to a player who holds no slot of an
      upcoming tournament; this is the label's condition within that panel. */
  function OffersAddMoney(user: Option<User>, entryFee: int): (r: bool)
    ensures r <==> user.Some? && user.value.wallet < entryFee
  {
    user.Some? && user.value.wallet < entryFee
  }

  /** Once the player is signed in and the slot asked for exists and is free, "Add Money"
      is offered exactly when the store would refuse the join for want of balance. */
  lemma AddMoneyExactlyWhenShort(u: User, ts: seq<Snapshot>, tid: string, n: int)
    requires FindTournament(ts, tid).Some?
    requires var t := ts[FindTournament(ts, tid).value];
      FindSlot(t.slots, n).Some? && IsFree(t.slots[FindSlot(t.slots, n).value])
    ensures OffersAddMoney(Some(u), ts[FindTournament(ts, tid).value].data.entryFee)
        <==> DecideJoin(Some(u), ts, tid, n) == InsufficientBalance
  {
    JoinGuardOrder(u, ts, tid, n);
  }

  /** The confirm button's `disabled` expression. */
  function ConfirmDisabled(isJoining: bool, playerName: string, gameId: string,
                           user: Option<User>, entryFee: int): (r: bool)
    ensures r <==> isJoining || playerName == "" || gameId == "" || OffersAddMoney(user, entryFee)
    ensures !r ==> !OffersAddMoney(user, entryFee)
  {
    isJoining || playerName == "" || gameId == "" || (user.Some? && user.value.wallet < entryFee)
  }

  /** An enabled confirm button, for a signed-in user and the tournament the page shows,
      never leads to the store's insufficient-balance refusal. */
  lemma EnabledConfirmCoversFee(user: Option<User>, ts: seq<Snapshot>, tid: string, n: int,
                                isJoining: bool, playerName: string, gameId: string)
    requires FindTournament(ts, tid).Some?
    requires !ConfirmDisabled(isJoining, playerName, gameId, user, ts[FindTournament(ts, tid).value].data.entryFee)
    ensures DecideJoin(user, ts, tid, n) != InsufficientBalance
  {
  }

  /** With the confirm button enabled no join is in flight, and only a missing slot can
      still stop `handleJoinConfirm` before it calls the store. */
  lemma EnabledConfirmPassesHandlerGuard(selectedSlot: Option<int>, isJoining: bool, playerName: string,
                                         gameId: string, user: Option<User>, entryFee: int)
    requires !ConfirmDisabled(isJoining, playerName, gameId, user, entryFee)
    ensures !isJoining
    ensures MissingInfo(selectedSlot, playerName, gameId) <==> selectedSlot.None? || selectedSlot.value == 0
  {
  }

  /** The page's dialog state. */
  class JoinDialog {
    var selectedSlot: Option<int>
    var playerName: string
    var gameId: string
    var isDialogOpen: bool
    var isJoining: bool

    constructor ()
      ensures selectedSlot == None && playerName == "" && gameId == ""
      ensures !isDialogOpen && !isJoining
    {
      selectedSlot, playerName, gameId := None, "", "";
      isDialogOpen, isJoining := false, false;
    }

    /** A click on a slot card: opens the dialog on that slot when `SlotClick` says so. */
    method ClickSlot(user: Option<User>, slot: Slot, status: Status)
      modifies this
      ensures SlotClick(user, slot, status).OpenDialog? ==>
        selectedSlot == Some(slot.number) && isDialogOpen
      ensures !SlotClick(user, slot, status).OpenDialog? ==>
        selectedSlot == old(selectedSlot) && isDialogOpen == old(isDialogOpen)
      ensures playerName == old(playerName) && gameId == old(gameId) && isJoining == old(isJoining)
    {
      if IsFree(slot) && status == Upcoming && user.Some? {
        selectedSlot := Some(slot.number);
        isDialogOpen := true;
      }
    }

    /** The two text inputs of the dialog. */
    method EnterDetails(name: string, id: string)
      modifies this
      ensures playerName == name && gameId == id
      ensures selectedSlot == old(selectedSlot) && isDialogOpen == old(isDialogOpen) && isJoining == old(isJoining)
    {
      playerName, gameId := name, id;
    }

    /** The end of `handleJoinConfirm`: a success closes and clears the dialog; the
        joining flag drops either way. */
    method Settle(ok: bool)
      modifies this
      ensures !isJoining
      ensures ok ==> !isDialogOpen && selectedSlot == None && playerName == "" && gameId == ""
      ensures !ok ==> selectedSlot == old(selectedSlot) && playerName == old(playerName)
                      && gameId == old(gameId) && isDialogOpen == old(isDialogOpen)
    {
      if ok {
        isDialogOpen, selectedSlot, playerName, gameId := false, None, "", "";
      }
      isJoining := false;
    }

    /** `handleJoinConfirm`: with a slot, a name and a game id it calls `joinTournament`
        on the page's tournament; a success closes the dialog and clears its fields, a
        failure leaves them for another try. */
    method HandleJoinConfirm(store: TournamentStore, session: Session, tournamentId: string)
      returns (called: bool, ok: bool)
      requires store.Valid()
      modifies this, session, store.SlotArrays()
      ensures store.Valid() && store.tournaments == old(store.tournaments)
      ensures called <==> !MissingInfo(old(selectedSlot), old(playerName), old(gameId))
      ensures !called ==> !ok && store.Contents() == old(store.Contents()) && session.user == old(session.user)
      ensures called ==>
        && ok == DecideJoin(old(session.user), old(store.Contents()), tournamentId, old(selectedSlot).value).Joined?
        && store.Contents() == TournamentsAfterJoin(old(session.user), old(store.Contents()), tournamentId,
                                                    old(selectedSlot).value, old(playerName), old(gameId))
        && session.user == UserAfterJoin(old(session.user), old(store.Contents()), tournamentId, old(selectedSlot).value)
        && !isJoining
      ensures !called ==> isJoining == old(isJoining)
      ensures ok ==> !isDialogOpen && selectedSlot == None && playerName == "" && gameId == ""
      ensures !ok ==> selectedSlot == old(selectedSlot) && playerName == old(playerName)
                      && gameId == old(gameId) && isDialogOpen == old(isDialogOpen)
    {
      if MissingInfo(selectedSlot, playerName, gameId) {
        return false, false;
      }
      var outcome;
      ok, outcome := store.JoinTournament(session, tournamentId, selectedSlot.value, playerName, gameId);
      Settle(ok);
      called := true;
    }
  }
}
