/** The dashboard: the number of tournaments of each game, and the preview of at most
    three upcoming tournaments, Free Fire ones first. */
module Dashboard {
  import opened Common
  import opened Tournaments

  /** How many tournaments each game card announces. */
  datatype GameCounts = GameCounts(freefire: nat, bgmi: nat)

  /** The lengths of `getTournamentsByGame('freefire')` and `getTournamentsByGame('bgmi')`:
      every tournament is counted once, on its own game's card. */
  function CountsByGame(ts: seq<Snapshot>): (r: GameCounts)
    ensures r.freefire == |TournamentsByGame(ts, FreeFire)| && r.bgmi == |TournamentsByGame(ts, Bgmi)|
    ensures r.freefire + r.bgmi == |ts|
    ensures r.freefire <= |ts| && r.bgmi <= |ts|
    ensures (forall k :: 0 <= k < |ts| ==> ts[k].data.gameType == FreeFire) ==> r.freefire == |ts|
  {
    GamesSplit(ts);
    GameCounts(|TournamentsByGame(ts, FreeFire)|, |TournamentsByGame(ts, Bgmi)|)
  }

  /** Every tournament belongs to exactly one of the two games. */
  lemma GamesSplit(ts: seq<Snapshot>)
    ensures |TournamentsByGame(ts, FreeFire)| + |TournamentsByGame(ts, Bgmi)| == |ts|
    ensures (forall k :: 0 <= k < |ts| ==> ts[k].data.gameType == FreeFire) ==> |TournamentsByGame(ts, FreeFire)| == |ts|
  {
    FilterComplement(ts, GameIs(FreeFire), GameIs(Bgmi));
    if forall k :: 0 <= k < |ts| ==> ts[k].data.gameType == FreeFire {
      FilterKeepsAll(ts, GameIs(FreeFire));
    }
  }

  /** The number of cards the upcoming section holds at most. */
  const PREVIEW_SIZE: nat := 3

  /** `[...freefire, ...bgmi].filter(t => t.status === 'upcoming').slice(0, 3)`. */
  function UpcomingPreview(ts: seq<Snapshot>): (r: seq<Snapshot>)
    ensures |r| <= PREVIEW_SIZE
    ensures forall k :: 0 <= k < |r| ==> r[k] in ts && r[k].data.status == Upcoming
    ensures var shown := UpcomingOfBoth(ts);
      r <= shown && |r| == (if |shown| < PREVIEW_SIZE then |shown| else PREVIEW_SIZE)
  {
    var shown := UpcomingOfBoth(ts);
    if |shown| <= PREVIEW_SIZE then shown else shown[..PREVIEW_SIZE]
  }

  /** The upcoming tournaments of both games, Free Fire ones first. */
  function UpcomingOfBoth(ts: seq<Snapshot>): (r: seq<Snapshot>)
    ensures forall k :: 0 <= k < |r| ==> r[k] in ts && r[k].data.status == Upcoming
    ensures r == Filter(TournamentsByGame(ts, FreeFire), StatusIs(Upcoming))
               + Filter(TournamentsByGame(ts, Bgmi), StatusIs(Upcoming))
  {
    var ff, bg := TournamentsByGame(ts, FreeFire), TournamentsByGame(ts, Bgmi);
    FilterAppend(ff, bg, StatusIs(Upcoming));
    var r := Filter(ff + bg, StatusIs(Upcoming));
    assert forall k :: 0 <= k < |r| ==> r[k] in ff + bg;
    r
  }

  /** No BGMI card comes before a Free Fire card in the preview. */
  lemma PreviewFreeFireFirst(ts: seq<Snapshot>)
    ensures var r := UpcomingPreview(ts);
      forall i, j :: 0 <= i < j < |r| && r[j].data.gameType == FreeFire ==> r[i].data.gameType == FreeFire
  {
    var ffUp := Filter(TournamentsByGame(ts, FreeFire), StatusIs(Upcoming));
    var bgUp := Filter(TournamentsByGame(ts, Bgmi), StatusIs(Upcoming));
    var shown := UpcomingOfBoth(ts);
    var r := UpcomingPreview(ts);
    forall i, j | 0 <= i < j < |r| && r[j].data.gameType == FreeFire
      ensures r[i].data.gameType == FreeFire
    {
      assert r[j] == shown[j] && r[i] == shown[i];
      assert shown[i] == ffUp[i];
      assert ffUp[i] in TournamentsByGame(ts, FreeFire);
    }
  }

  /** With three or more upcoming Free Fire tournaments the preview shows only those,
      the first three of them. */
  lemma PreviewPrefersFreeFire(ts: seq<Snapshot>)
    requires |Filter(TournamentsByGame(ts, FreeFire), StatusIs(Upcoming))| >= PREVIEW_SIZE
    ensures UpcomingPreview(ts) == Filter(TournamentsByGame(ts, FreeFire), StatusIs(Upcoming))[..PREVIEW_SIZE]
  {
    var ffUp := Filter(TournamentsByGame(ts, FreeFire), StatusIs(Upcoming));
    var shown := UpcomingOfBoth(ts);
    assert shown[..PREVIEW_SIZE] == ffUp[..PREVIEW_SIZE];
  }
}
