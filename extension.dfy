/**
 * The editor extension's wiring (flowtabs/src/extension.ts): the commands a
 * selection or a search issues, the hand-over of the ranker's result to the two
 * views, and the state updated by the socket and favourite handlers. Commands
 * to the operating system and the browser are returned as values; whether the
 * browser is open and the url encoding are parameters.
 */
module Extension {
  import opened JsValues
  import opened Items
  import opened Ranking
  import Scoring
  import Ranker
  import TreeView
  import WindowRepo
  import Transport
  import BrowserAgent
  import Favourites

  /** What the handlers ask of the outside world. */
  datatype Command =
    | ActivateBrowser
    | SendMessage(action: string, name: string, value: Key)
    | ActivateWindow(id: Key)
    | OpenBrowser(url: string)

  /** The selection handler, shared by both views: nothing for an empty
      selection; for a tab, bring the browser forward and then ask it to
      activate the tab; for a window, activate it and send nothing. */
  function OnSelection(selection: seq<Item>): (cs: seq<Command>)
    ensures cs == [] <==> selection == []
    ensures selection != [] && selection[0].Window? ==> cs == [ActivateWindow(selection[0].id)]
    ensures selection != [] && selection[0].Tab? ==>
              cs == [ActivateBrowser, SendMessage("activateTab", "id", selection[0].id)]
  {
    if selection == [] then []
    else if selection[0].Tab? then [ActivateBrowser, SendMessage("activateTab", "id", selection[0].id)]
    else [ActivateWindow(selection[0].id)]
  }

  /** The selection handler with the tab named by its url, the field the
      browser reads. */
  function OnSelectionByUrl(selection: seq<Item>): (cs: seq<Command>)
    ensures cs == [] <==> selection == []
    ensures selection != [] && selection[0].Window? ==> cs == OnSelection(selection)
    ensures selection != [] && selection[0].Tab? ==>
              cs == [ActivateBrowser, SendMessage("activateTab", "url", Str(selection[0].url))]
  {
    if selection == [] then []
    else if selection[0].Tab? then [ActivateBrowser, SendMessage("activateTab", "url", Str(selection[0].url))]
    else [ActivateWindow(selection[0].id)]
  }

  /** The object the browser parses for a `SendMessage` command. */
  function Wire(c: Command): Transport.WireObject
    requires c.SendMessage?
  {
    Transport.Encode(c.action, c.name, c.value)
  }

  /** As written, selecting a tab asks the browser to activate a tab without
      telling it which: the message names the tab by id and the browser reads
      its url. */
  lemma SelectionReachesBrowserWithoutUrl(selection: seq<Item>)
    requires selection != [] && selection[0].Tab?
    ensures BrowserAgent.ActivationRequest(Some(Wire(OnSelection(selection)[1]))) == Some(None)
  {
    BrowserAgent.EditorActivationHasNoUrl(selection[0].id);
  }

  /** Naming the tab by url, the browser is asked to activate the selected
      tab's url. */
  lemma SelectionByUrlReachesBrowser(selection: seq<Item>)
    requires selection != [] && selection[0].Tab?
    ensures BrowserAgent.ActivationRequest(Some(Wire(OnSelectionByUrl(selection)[1])))
            == Some(Some(Transport.Text(selection[0].url)))
  {
    BrowserAgent.ActivationByUrlCarriesUrl(selection[0].url);
  }

  const SearchPrefix: string := "https://www.google.com/search?q="

  /** The search handler, given what the input box returned (`None` when it was
      dismissed), whether the browser runs, and the url encoding. */
  function OnSearch(input: Option<string>, isOpen: bool, encode: string -> string): (cs: seq<Command>)
    ensures cs == [] <==> input.None? || AllWhitespace(input.value)
    ensures cs != [] ==>
      var url := SearchPrefix + encode(Trim(input.value));
      && cs == [if isOpen then ActivateBrowser else OpenBrowser(url), SendMessage("search", "url", Str(url))]
  {
    if input.None? then []
    else
      TrimSpec(input.value);
      var query := Trim(input.value);
      if query == [] then []
      else
        var url := SearchPrefix + encode(query);
        [if isOpen then ActivateBrowser else OpenBrowser(url), SendMessage("search", "url", Str(url))]
  }

  /** The object `getScore` returns, by property name. */
  function ScoreObject(v: Views): map<string, seq<Item>> {
    map["allTabs" := v.allTabs, "relevantTabsWithFavorites" := v.relevant]
  }

  /** Reading a property by name: `None` is `undefined`. */
  function Property(obj: map<string, seq<Item>>, name: string): Option<seq<Item>> {
    if name in obj then Some(obj[name]) else None
  }

  /** The lists `syncTabs` hands to the overflow view and to the relevant view,
      as written: it reads `relevantTabs`, which the result does not have. */
  function SyncTabsAsWritten(v: Views): (Option<seq<Item>>, Option<seq<Item>>) {
    (Property(ScoreObject(v), "allTabs"), Property(ScoreObject(v), "relevantTabs"))
  }

  /** As written, the relevant view is never given a list. */
  lemma RelevantViewNeverFilled(v: Views)
    ensures SyncTabsAsWritten(v).0 == Some(v.allTabs)
    ensures SyncTabsAsWritten(v).1 == None
  {
  }

  /** Reading `relevantTabsWithFavorites` instead. */
  function SyncTabsLists(v: Views): (r: (Option<seq<Item>>, Option<seq<Item>>))
    ensures r == (Some(v.allTabs), Some(v.relevant))
  {
    (Property(ScoreObject(v), "allTabs"), Property(ScoreObject(v), "relevantTabsWithFavorites"))
  }

  /** The extension's state once activated. */
  class FlowTabs {
    var wsClient: Option<int>
    const calculator: Ranker.TabScoreCalculator
    const tabView: TreeView.TabTreeDataProvider
    const relevantView: TreeView.TabTreeDataProvider
    const windowManager: WindowRepo.WindowManager

    /** Two distinct views, both asking the one calculator whether an element
        is a favourite, and a window list with distinct ids and no excluded
        process. */
    predicate Valid()
      reads this, windowManager
    {
      && tabView != relevantView
      && tabView.tabScoreCalculator == calculator && relevantView.tabScoreCalculator == calculator
      && WindowRepo.Valid(windowManager.windows)
    }

    /** The views show the split of the current tabs and windows, and the
        calculator's evaluated list is their ranking. */
    predicate Synced(now: int, decay: int -> real)
      reads this, calculator, tabView, relevantView
    {
      var items := calculator.newTabs + calculator.newWindows;
      var v := ScoreViews(items, calculator.favoriteTabs, now, decay);
      && calculator.tabs == Rank(items, Scoring.FinalScores(items, now, decay))
      && tabView.tabs == v.allTabs && relevantView.tabs == v.relevant
    }

    constructor()
      ensures Valid() && wsClient == None
      ensures calculator.tabs == [] && calculator.newTabs == [] && calculator.newWindows == []
              && calculator.favoriteTabs == []
      ensures tabView.tabs == [] && relevantView.tabs == []
      ensures windowManager.windows == [] && windowManager.lastWindow == Num(0)
      ensures fresh(calculator) && fresh(tabView) && fresh(relevantView) && fresh(windowManager)
    {
      wsClient := None;
      windowManager := new WindowRepo.WindowManager();
      var c := new Ranker.TabScoreCalculator([]);
      calculator := c;
      tabView := new TreeView.TabTreeDataProvider(c);
      relevantView := new TreeView.TabTreeDataProvider(c);
    }

    /** `syncTabs` reading the relevant list under its actual name: the
        overflow view gets the overflow list and the relevant view the relevant
        list of the current tabs and windows; each view redraws once. */
    method SyncTabs(now: int, decay: int -> real)
      requires Valid()
      modifies calculator, tabView, relevantView
      ensures Valid() && Synced(now, decay)
      ensures calculator.newTabs == old(calculator.newTabs) && calculator.newWindows == old(calculator.newWindows)
      ensures calculator.favoriteTabs == old(calculator.favoriteTabs)
      ensures tabView.changes == old(tabView.changes) + 1 && relevantView.changes == old(relevantView.changes) + 1
    {
      var allTabs, relevantTabsWithFavorites := calculator.GetScore(now, decay);
      tabView.UpdateTabs(allTabs);
      relevantView.UpdateTabs(relevantTabsWithFavorites);
    }

    /** A new connection replaces the client. */
    method OnConnection(client: int)
      modifies this
      ensures wsClient == Some(client)
    {
      wsClient := Some(client);
    }

    /** A message with a tab list (`None` when it does not parse) replaces the
        tabs and re-syncs both views; a malformed one changes nothing. */
    method OnMessage(tabs: Option<seq<Item>>, now: int, decay: int -> real)
      requires Valid()
      modifies calculator, tabView, relevantView
      ensures Valid()
      ensures calculator.newWindows == old(calculator.newWindows)
      ensures calculator.favoriteTabs == old(calculator.favoriteTabs)
      ensures tabs.None? ==> calculator.newTabs == old(calculator.newTabs) && calculator.tabs == old(calculator.tabs)
                             && tabView.tabs == old(tabView.tabs) && relevantView.tabs == old(relevantView.tabs)
      ensures tabs.Some? ==> calculator.newTabs == tabs.value && Synced(now, decay)
    {
      if tabs.Some? {
        calculator.UpdateItems(tabs.value, Ranker.TabList);
        SyncTabs(now, decay);
      }
    }

    /** On close the views are redrawn with their lists unchanged, the tabs are
        emptied while the windows stay, and the client is forgotten. */
    method OnClose()
      requires Valid()
      modifies this, calculator, tabView, relevantView
      ensures Valid() && wsClient == None
      ensures tabView.tabs == old(tabView.tabs) && relevantView.tabs == old(relevantView.tabs)
      ensures calculator.newTabs == [] && calculator.newWindows == old(calculator.newWindows)
      ensures calculator.favoriteTabs == old(calculator.favoriteTabs) && calculator.tabs == old(calculator.tabs)
    {
      tabView.Refresh();
      relevantView.Refresh();
      calculator.UpdateItems([], Ranker.TabList);
      wsClient := None;
    }

    /** The add-favourite command: the favourite is recorded, the tabs and
        windows stay, and both views are re-synced, so the item is in the
        relevant view if it is listed. */
    method AddFavorite(e: Item, now: int, decay: int -> real)
      requires Valid()
      modifies calculator, tabView, relevantView
      ensures Valid() && Synced(now, decay)
      ensures calculator.favoriteTabs == Favourites.Added(old(calculator.favoriteTabs), e)
      ensures calculator.newTabs == old(calculator.newTabs) && calculator.newWindows == old(calculator.newWindows)
    {
      calculator.AddFavoriteTab(e);
      SyncTabs(now, decay);
    }

    /** The remove-favourite command: the favourite goes, the tabs and windows
        stay, and both views are re-synced. */
    method RemoveFavorite(e: Item, now: int, decay: int -> real)
      requires Valid()
      modifies calculator, tabView, relevantView
      ensures Valid() && Synced(now, decay)
      ensures calculator.favoriteTabs == Favourites.Removed(old(calculator.favoriteTabs), e.id)
      ensures calculator.newTabs == old(calculator.newTabs) && calculator.newWindows == old(calculator.newWindows)
    {
      calculator.RemoveFavoriteTab(e);
      SyncTabs(now, decay);
    }

    /** One round of the window update cycle, given the parsed enumeration and
        the numeric id of the active window: merge, activate, hand the windows
        to the calculator and re-sync both views. */
    method UpdateCycle(data: seq<Item>, activeId: int, now: int, decay: int -> real)
      requires Valid()
      modifies windowManager, calculator, tabView, relevantView
      ensures Valid() && Synced(now, decay)
      ensures windowManager.windows
              == WindowRepo.Activated(WindowRepo.Merged(old(windowManager.windows), data),
                                      Num(activeId), old(windowManager.lastWindow), now)
      ensures windowManager.lastWindow == Num(activeId)
      ensures calculator.newWindows == windowManager.windows
      ensures calculator.newTabs == old(calculator.newTabs) && calculator.favoriteTabs == old(calculator.favoriteTabs)
    {
      windowManager.GetAllWindows(data);
      windowManager.GetActiveWindowById(activeId, now);
      calculator.UpdateItems(windowManager.GetWindows(), Ranker.WindowList);
      SyncTabs(now, decay);
    }
  }
}
