/** The per-game tournament list: the route parameter is normalised to a game, and the
    game's tournaments are split by status into the upcoming, ongoing and completed tabs. */
module TournamentList {
  import opened Common
  import opened Tournaments

  /** `validGameType`: "freefire" and "bgmi" are kept, anything else (a missing parameter
      included) falls back to Free Fire. */
  function ValidGameType(param: Option<string>): (r: GameType)
    ensures r == Bgmi <==> param == Some("bgmi")
    ensures param == Some("freefire") ==> r == FreeFire
  {
    if param == Some("freefire") || param == Some("bgmi") then
      (if param == Some("bgmi") then Bgmi else FreeFire)
    else FreeFire
  }

  /** The three tabs' lists. */
  datatype Tabs = Tabs(upcoming: seq<Snapshot>, ongoing: seq<Snapshot>, completed: seq<Snapshot>)

  /** The lists the page shows for a route parameter: the game's tournaments, filtered
      by status once per tab. */
  function ListTabs(ts: seq<Snapshot>, param: Option<string>): (r: Tabs)
    ensures var g := ValidGameType(param);
      && (forall k :: 0 <= k < |r.upcoming| ==>
            r.upcoming[k] in ts && r.upcoming[k].data.gameType == g && r.upcoming[k].data.status == Upcoming)
      && (forall k :: 0 <= k < |r.ongoing| ==>
            r.ongoing[k] in ts && r.ongoing[k].data.gameType == g && r.ongoing[k].data.status == Ongoing)
      && (forall k :: 0 <= k < |r.completed| ==>
            r.completed[k] in ts && r.completed[k].data.gameType == g && r.completed[k].data.status == Completed)
  {
    var all := TournamentsByGame(ts, ValidGameType(param));
    Tabs(Filter(all, StatusIs(Upcoming)), Filter(all, StatusIs(Ongoing)), Filter(all, StatusIs(Completed)))
  }

  /** No tournament is in two tabs. */
  lemma TabsDisjoint(ts: seq<Snapshot>, param: Option<string>)
    ensures var r := ListTabs(ts, param);
      && (forall i, j :: 0 <= i < |r.upcoming| && 0 <= j < |r.ongoing| ==> r.upcoming[i] != r.ongoing[j])
      && (forall i, j :: 0 <= i < |r.upcoming| && 0 <= j < |r.completed| ==> r.upcoming[i] != r.completed[j])
      && (forall i, j :: 0 <= i < |r.ongoing| && 0 <= j < |r.completed| ==> r.ongoing[i] != r.completed[j])
  {
  }

  /** Every tournament of the game is in one of the tabs. */
  lemma TabsCoverGame(ts: seq<Snapshot>, param: Option<string>)
    ensures var r := ListTabs(ts, param);
      forall k :: 0 <= k < |ts| && ts[k].data.gameType == ValidGameType(param) ==>
        ts[k] in r.upcoming || ts[k] in r.ongoing || ts[k] in r.completed
  {
    var all := TournamentsByGame(ts, ValidGameType(param));
    forall k | 0 <= k < |ts| && ts[k].data.gameType == ValidGameType(param)
      ensures ts[k] in Filter(all, StatusIs(ts[k].data.status))
    {
      assert ts[k] in all;
      var j :| 0 <= j < |all| && all[j] == ts[k];
      assert StatusIs(ts[k].data.status)(all[j]);
    }
  }

  /** The three tab counts add up to the number of the game's tournaments. */
  lemma TabCountsAddUp(ts: seq<Snapshot>, param: Option<string>)
    ensures var r := ListTabs(ts, param);
      |r.upcoming| + |r.ongoing| + |r.completed| == |TournamentsByGame(ts, ValidGameType(param))|
  {
    StatusPartition(TournamentsByGame(ts, ValidGameType(param)));
  }

  /** Every tournament has exactly one of the three statuses, so the three status
      filters together keep every element once. */
  lemma {:induction false} StatusPartition(s: seq<Snapshot>)
    ensures |Filter(s, StatusIs(Upcoming))| + |Filter(s, StatusIs(Ongoing))| + |Filter(s, StatusIs(Completed))| == |s|
  {
    if s != [] {
      StatusPartition(s[1..]);
    }
  }

  /** Each tab lists its tournaments in the order the game's list has them. */
  lemma ListTabsKeepOrder(ts: seq<Snapshot>, param: Option<string>)
    ensures var all := TournamentsByGame(ts, ValidGameType(param));
      var r := ListTabs(ts, param);
      IsSubseq(r.upcoming, all) && IsSubseq(r.ongoing, all) && IsSubseq(r.completed, all)
  {
    var all := TournamentsByGame(ts, ValidGameType(param));
    FilterIsSubseq(all, StatusIs(Upcoming));
    FilterIsSubseq(all, StatusIs(Ongoing));
    FilterIsSubseq(all, StatusIs(Completed));
  }
}
