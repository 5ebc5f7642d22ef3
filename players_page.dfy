/**
 * The player list page (src/pages/Players.tsx): a name search that overrides
 * the tab filter whenever the query is not blank, and a tab filter on the
 * bowling type.
 */
module PlayersPage {
  import opened Types
  import opened Seqs
  import opened Strings

  /** Players whose lower-cased name contains the lower-cased query (the query is not trimmed). */
  function SearchResults(players: seq<Player>, query: string): seq<Player>
  {
    Filter(players, (p: Player) => Contains(Lower(p.name), Lower(query)))
  }

  predicate IsBlank(query: string)
  {
    Trim(query) == ""
  }

  /** The list a tab selects; None for a tab value the page does not know, which changes nothing. */
  function TabFilter(players: seq<Player>, tab: string): Option<seq<Player>>
  {
    if tab == "all" then Some(players)
    else if tab == "batsman" then Some(Filter(players, (p: Player) => BowlingTypeName(p.bowlingType) == "None"))
    else if tab == "bowler" then
      Some(Filter(players, (p: Player) => BowlingTypeName(p.bowlingType) == "Spinner"
                                          || BowlingTypeName(p.bowlingType) == "Pacer"))
    else if tab == "all-rounder" then
      Some(Filter(players, (p: Player) => BowlingTypeName(p.bowlingType) == "All-rounder"))
    else None
  }

  /** What the search effect leaves in the filtered list. */
  function EffectResult(players: seq<Player>, filtered: seq<Player>, query: string, tab: string): seq<Player>
  {
    if IsBlank(query) then (if TabFilter(players, tab).Some? then TabFilter(players, tab).value else filtered)
    else SearchResults(players, query)
  }

  /** The search keeps exactly the matching players, in their order and multiplicity. */
  lemma SearchResultsExact(players: seq<Player>, query: string, p: Player)
    ensures p in SearchResults(players, query) <==> p in players && Contains(Lower(p.name), Lower(query))
    ensures multiset(SearchResults(players, query))[p]
            == if Contains(Lower(p.name), Lower(query)) then multiset(players)[p] else 0
    ensures IsSubseq(SearchResults(players, query), players)
  {
    var pred := (p: Player) => Contains(Lower(p.name), Lower(query));
    FilterMembership(players, pred, p);
    FilterCount(players, pred, p);
    FilterIsSubseq(players, pred);
  }

  /**
   * A query of white space only is blank, so the tab decides; a non-blank
   * query decides alone, whatever the tab.
   */
  lemma EffectChoice(players: seq<Player>, filtered: seq<Player>, query: string, tab: string, tab': string)
    ensures AllSpace(query) ==> EffectResult(players, filtered, query, tab)
                                == if TabFilter(players, tab).Some? then TabFilter(players, tab).value else filtered
    ensures !AllSpace(query) ==> EffectResult(players, filtered, query, tab) == SearchResults(players, query)
                                 && EffectResult(players, filtered, query, tab) == EffectResult(players, filtered, query, tab')
  {
    TrimEmptyIffAllSpace(query);
  }

  /**
   * The query is matched as typed, not trimmed: a query that starts with
   * white space finds only players whose name holds white space.
   */
  lemma QueryNotTrimmed(players: seq<Player>, query: string, c: char, p: Player)
    requires IsJsSpace(c)
    ensures p in SearchResults(players, [c] + query) ==> exists k :: 0 <= k < |p.name| && IsJsSpace(p.name[k])
  {
    var needle := Lower([c] + query);
    FilterMembership(players, (q: Player) => Contains(Lower(q.name), needle), p);
    if p in SearchResults(players, [c] + query) {
      var hay := Lower(p.name);
      var i :| 0 <= i <= |hay| - |needle| && OccursAt(hay, needle, i);
      assert hay[i] == hay[i..i + |needle|][0] == needle[0] == c;
      assert p.name[i] == c;
    }
  }

  /** The 'all' tab keeps every player; the 'batsman' tab exactly those whose bowling type is None. */
  lemma TabAllAndBatsman(players: seq<Player>, p: Player)
    ensures TabFilter(players, "all") == Some(players)
    ensures TabFilter(players, "batsman").Some?
    ensures p in TabFilter(players, "batsman").value <==> p in players && p.bowlingType == NoBowling
    ensures IsSubseq(TabFilter(players, "batsman").value, players)
  {
    var pred := (p: Player) => BowlingTypeName(p.bowlingType) == "None";
    FilterMembership(players, pred, p);
    FilterIsSubseq(players, pred);
    assert BowlingTypeName(p.bowlingType) == "None" <==> p.bowlingType == NoBowling by {
      match p.bowlingType
      case OffSpin =>
      case LegSpin =>
      case LeftArmOrthodox =>
      case LeftArmChinaman =>
      case MediumFast =>
      case Fast =>
      case NoBowling =>
    }
  }

  lemma NotAnyBowlingType(b: BowlingType)
    ensures BowlingTypeName(b) != "Spinner" && BowlingTypeName(b) != "Pacer" && BowlingTypeName(b) != "All-rounder"
  {
  }

  /**
   * 'Spinner', 'Pacer' and 'All-rounder' are not bowling types, so the 'bowler'
   * and 'all-rounder' tabs show nobody; any other unknown tab changes nothing.
   */
  lemma BowlerTabsEmpty(players: seq<Player>, tab: string)
    ensures TabFilter(players, "bowler") == Some([])
    ensures TabFilter(players, "all-rounder") == Some([])
    ensures TabFilter(players, tab).None? <==> tab != "all" && tab != "batsman" && tab != "bowler" && tab != "all-rounder"
  {
    forall i | 0 <= i < |players| ensures BowlingTypeName(players[i].bowlingType) != "Spinner"
      && BowlingTypeName(players[i].bowlingType) != "Pacer"
      && BowlingTypeName(players[i].bowlingType) != "All-rounder"
    {
      NotAnyBowlingType(players[i].bowlingType);
    }
    FilterNone(players, (p: Player) => BowlingTypeName(p.bowlingType) == "Spinner"
                                       || BowlingTypeName(p.bowlingType) == "Pacer");
    FilterNone(players, (p: Player) => BowlingTypeName(p.bowlingType) == "All-rounder");
  }

  /** The page's state. */
  class PlayersView {
    var players: seq<Player>
    var filteredPlayers: seq<Player>
    var searchQuery: string
    var currentTab: string

    constructor ()
      ensures players == [] && filteredPlayers == [] && searchQuery == "" && currentTab == "all"
    {
      players, filteredPlayers, searchQuery, currentTab := [], [], "", "all";
    }

    /** filterPlayersByType: records the tab and, for a known tab, replaces the list. */
    method FilterPlayersByType(tab: string)
      modifies this
      ensures currentTab == tab
      ensures filteredPlayers == if TabFilter(players, tab).Some? then TabFilter(players, tab).value
                                 else old(filteredPlayers)
      ensures players == old(players) && searchQuery == old(searchQuery)
    {
      currentTab := tab;
      if tab == "all" {
        filteredPlayers := players;
      } else if tab == "batsman" {
        filteredPlayers := Filter(players, (p: Player) => BowlingTypeName(p.bowlingType) == "None");
      } else if tab == "bowler" {
        filteredPlayers := Filter(players, (p: Player) => BowlingTypeName(p.bowlingType) == "Spinner"
                                                          || BowlingTypeName(p.bowlingType) == "Pacer");
      } else if tab == "all-rounder" {
        filteredPlayers := Filter(players, (p: Player) => BowlingTypeName(p.bowlingType) == "All-rounder");
      }
    }

    /** The effect that runs whenever the query, the players or the tab changes. */
    method SearchEffect()
      modifies this
      ensures filteredPlayers == EffectResult(players, old(filteredPlayers), searchQuery, currentTab)
      ensures players == old(players) && searchQuery == old(searchQuery) && currentTab == old(currentTab)
    {
      if Trim(searchQuery) == "" {
        FilterPlayersByType(currentTab);
      } else {
        filteredPlayers := SearchResults(players, searchQuery);
      }
    }

    /**
     * Typing in the search box: the query is stored, and the effect runs only
     * when it differs from the stored one (React skips an update to the same value).
     */
    method OnSearchChange(query: string)
      modifies this
      ensures searchQuery == query && players == old(players) && currentTab == old(currentTab)
      ensures filteredPlayers == if query != old(searchQuery)
                                 then EffectResult(players, old(filteredPlayers), query, currentTab)
                                 else old(filteredPlayers)
    {
      if query != searchQuery {
        searchQuery := query;
        SearchEffect();
      }
    }

    /** Choosing a tab: filterPlayersByType, then the effect, which runs only if the tab changed. */
    method OnTabChange(tab: string)
      modifies this
      ensures currentTab == tab && players == old(players) && searchQuery == old(searchQuery)
      ensures var byTab := if TabFilter(players, tab).Some? then TabFilter(players, tab).value else old(filteredPlayers);
        filteredPlayers == if tab != old(currentTab) then EffectResult(players, byTab, searchQuery, tab) else byTab
    {
      var previous := currentTab;
      FilterPlayersByType(tab);
      if tab != previous {
        SearchEffect();
      }
    }

    /** The players arrive: both lists are set to them, and the effect runs. */
    method Load(data: seq<Player>)
      modifies this
      ensures players == data && searchQuery == old(searchQuery) && currentTab == old(currentTab)
      ensures filteredPlayers == EffectResult(data, data, searchQuery, currentTab)
    {
      players := data;
      filteredPlayers := data;
      SearchEffect();
    }
  }
}
