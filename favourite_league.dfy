/**
 * screens/Onboarding/FavouriteLeague.tsx: the league selection, the guard
 * on Next, and the pass that attaches a logo to each fetched league.
 */
module FavouriteLeague {
  import opened Wrappers
  import opened Selection

  const NoLeagueMessage: string := "Please select at least 1 league to continue, else Skip"

  /** An entry of the bundled logo table; `logo` names the image asset. */
  datatype LeagueLogo = LeagueLogo(name: string, logo: string)

  const LeagueLogos: seq<LeagueLogo> := [
    LeagueLogo("Premier League", "assets/logos/premierLeague.png"),
    LeagueLogo("La Liga", "assets/logos/laliga.png"),
    LeagueLogo("Bundesliga", "assets/logos/bundesliga.png"),
    LeagueLogo("Ligue 1", "assets/logos/ligue1.png"),
    LeagueLogo("Serie A", "assets/logos/seriea.png")
  ]

  /** `table.find(e => e.name === name)?.logo`: the first entry with that name, if any. */
  function FindLogo(table: seq<LeagueLogo>, name: string): (r: Option<string>)
    ensures r.None? <==> forall i :: 0 <= i < |table| ==> table[i].name != name
    ensures r.Some? ==> exists i :: 0 <= i < |table| && table[i].name == name && r.value == table[i].logo
                           && forall j :: 0 <= j < i ==> table[j].name != name
  {
    if table == [] then None
    else if table[0].name == name then Some(table[0].logo)
    else
      var r := FindLogo(table[1..], name);
      if r.Some? then
        ghost var i :| 0 <= i < |table[1..]| && table[1..][i].name == name && r.value == table[1..][i].logo
                       && forall j :: 0 <= j < i ==> table[1..][j].name != name;
        assert table[i + 1].name == name && forall j :: 0 <= j < i + 1 ==> table[j].name != name;
        r
      else r
  }

  function LogoFor(name: string): Option<string>
  {
    FindLogo(LeagueLogos, name)
  }

  /** The five bundled names find their own logos; any other name finds none. */
  lemma BundledLogos(name: string)
    ensures LogoFor("Premier League") == Some("assets/logos/premierLeague.png")
    ensures LogoFor("Serie A") == Some("assets/logos/seriea.png")
    ensures name !in {"Premier League", "La Liga", "Bundesliga", "Ligue 1", "Serie A"} ==> LogoFor(name).None?
  {
    var t := LeagueLogos;
    assert t[0].name == "Premier League" && t[4] == LeagueLogo("Serie A", "assets/logos/seriea.png");
    assert forall j :: 0 <= j < 4 ==> t[j].name != "Serie A";
    if name !in {"Premier League", "La Liga", "Bundesliga", "Ligue 1", "Serie A"} {
      assert forall i :: 0 <= i < |t| ==> t[i].name != name;
    }
  }

  /** A fetched league, whose `logo` the screen overwrites in place. */
  class League {
    const id: string
    const name: string
    var logo: Option<string>

    constructor (id0: string, name0: string, logo0: Option<string>)
      ensures id == id0 && name == name0 && logo == logo0
    {
      id := id0;
      name := name0;
      logo := logo0;
    }
  }

  /**
   * populatedLeaguesWithLogos: when the leagues are loaded, set each one's
   * logo from the table (undefined when its name is not there) and return
   * the same list; when they are not, return nothing.
   */
  method PopulatedLeaguesWithLogos(leagues: Option<seq<League>>) returns (r: Option<seq<League>>)
    modifies if leagues.Some? then set l | l in leagues.value else {}
    ensures r == leagues
    ensures leagues.Some? ==> forall l :: l in leagues.value ==> l.logo == LogoFor(l.name)
  {
    if leagues.None? {
      return leagues;
    }
    var ls := leagues.value;
    var i := 0;
    while i < |ls|
      invariant 0 <= i <= |ls|
      invariant forall j :: 0 <= j < i ==> ls[j].logo == LogoFor(ls[j].name)
    {
      ls[i].logo := LogoFor(ls[i].name);
      i := i + 1;
    }
    return leagues;
  }

  /** The screen's state: the selected league ids and the message under the list. */
  class FavouriteLeagueScreen {
    var activeLeagueIds: seq<string>
    var errorMessage: string

    constructor ()
      ensures activeLeagueIds == [] && errorMessage == ""
    {
      activeLeagueIds := [];
      errorMessage := "";
    }

    /** handleOnPressLeague: clear the message and toggle the id. */
    method HandleOnPressLeague(leagueId: string)
      modifies this
      ensures activeLeagueIds == Toggle(old(activeLeagueIds), leagueId)
      ensures errorMessage == ""
    {
      var isActive := leagueId in activeLeagueIds;
      errorMessage := "";
      if isActive {
        activeLeagueIds := Remove(activeLeagueIds, leagueId);
      } else {
        activeLeagueIds := activeLeagueIds + [leagueId];
      }
    }

    function IsLeagueActive(leagueId: string): bool
      reads this
    {
      leagueId in activeLeagueIds
    }

    function IsDisabled(): (r: bool)
      reads this
      ensures r <==> activeLeagueIds == []
    {
      !(|activeLeagueIds| > 0)
    }

    /**
     * onPressNextAsync up to the request: with nothing selected, set the
     * message and send nothing; otherwise the selected ids are what
     * createLeagueInterestAsync is called with.
     */
    method OnPressNext() returns (request: Option<seq<string>>)
      modifies this
      ensures activeLeagueIds == old(activeLeagueIds)
      ensures request.None? <==> old(activeLeagueIds) == []
      ensures request.Some? ==> request.value == activeLeagueIds && errorMessage == old(errorMessage)
      ensures request.None? ==> errorMessage == NoLeagueMessage
    {
      if IsDisabled() {
        errorMessage := NoLeagueMessage;
        return None;
      }
      var leagueIds := activeLeagueIds;
      request := Some(leagueIds);
    }
  }
}
