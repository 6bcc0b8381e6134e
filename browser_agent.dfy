/**
 * The browser agent (extension-chrome/background.js): the tab history kept by
 * `TabManager`, the snapshot it sends to the editor, the send guard of
 * `WebSocketManager`, and the decision taken on an inbound message. What the
 * tabs API reports (`chrome.tabs.query`) and the clock are parameters.
 */
module BrowserAgent {
  import opened JsValues
  import opened Items
  import opened Transport
  import opened Scoring
  import Seqs
  import StableSort

  /** A tab as `chrome.tabs.query` reports it; an absent favicon is "". */
  datatype BrowserTab = BrowserTab(id: int, title: string, url: string, favIconUrl: string)

  /** The ids of the reported tabs. */
  function TabIds(tabs: seq<BrowserTab>): set<int> {
    set t | t in tabs :: t.id
  }

  /** `tabHistory[id]?.lastAccessed || 0`. */
  function LastAccessedOf(history: map<int, int>, id: int): int {
    if id in history then history[id] else 0
  }

  function HistoryKey(history: map<int, int>): BrowserTab -> real {
    (t: BrowserTab) => LastAccessedOf(history, t.id) as real
  }

  /** The snapshot entry for a tab: title, url, icon and last access; no id and
      no frequency, as the editor receives it. */
  function Entry(history: map<int, int>): BrowserTab -> Item {
    (t: BrowserTab) => Tab(Undefined, t.title, t.url, t.favIconUrl, Some(LastAccessedOf(history, t.id)), 0)
  }

  /** The tab list sent to the editor: the reported tabs, most recently used
      first, as entries. */
  function Snapshot(tabs: seq<BrowserTab>, history: map<int, int>): seq<Item> {
    Seqs.Map(StableSort.SortDesc(tabs, HistoryKey(history)), Entry(history))
  }

  /** The history after the fill loop of `sendTabsToVSCode`: every reported tab
      has an entry, the entries that existed are kept, and the new ones are
      stamped with `now`. */
  function Filled(history: map<int, int>, tabs: seq<BrowserTab>, now: int): (h: map<int, int>)
    ensures h.Keys == history.Keys + TabIds(tabs)
    ensures forall id :: id in history ==> h[id] == history[id]
    ensures forall id :: id in h && id !in history ==> h[id] == now
  {
    if tabs == [] then history
    else
      var init, t := tabs[..|tabs| - 1], tabs[|tabs| - 1];
      assert tabs == init + [t];
      assert TabIds(tabs) == TabIds(init) + {t.id};
      var h := Filled(history, init, now);
      if t.id in h then h else h[t.id := now]
  }

  /** One more iteration of the fill loop. */
  lemma FilledStep(history: map<int, int>, tabs: seq<BrowserTab>, i: nat, now: int)
    requires i < |tabs|
    ensures Filled(history, tabs[..i + 1], now)
            == var h := Filled(history, tabs[..i], now);
               if tabs[i].id in h then h else h[tabs[i].id := now]
  {
    assert tabs[..i + 1][..i] == tabs[..i];
  }

  /** The snapshot has one entry per reported tab, most recent first; each
      entry is the entry of a reported tab and carries no id. */
  lemma {:induction false} SnapshotSortedAndComplete(tabs: seq<BrowserTab>, history: map<int, int>)
    ensures var s := Snapshot(tabs, history);
      && |s| == |tabs|
      && multiset(s) == multiset(Seqs.Map(tabs, Entry(history)))
      && (forall i, j :: 0 <= i < j < |s| ==> s[i].lastAccessed.value >= s[j].lastAccessed.value)
      && (forall t :: t in tabs ==> Entry(history)(t) in s)
      && (forall x :: x in s ==> x.id == Undefined && x.frequency == 0)
  {
    var sorted := StableSort.SortDesc(tabs, HistoryKey(history));
    StableSort.SortDescStable(tabs, HistoryKey(history));
    StableSort.SortDescLength(tabs, HistoryKey(history));
    var s := Snapshot(tabs, history);
    Seqs.MapPermutation(sorted, tabs, Entry(history));
    forall i, j | 0 <= i < j < |s| ensures s[i].lastAccessed.value >= s[j].lastAccessed.value {
      assert HistoryKey(history)(sorted[i]) >= HistoryKey(history)(sorted[j]);
    }
    forall t | t in tabs ensures Entry(history)(t) in s {
      assert t in multiset(sorted);
      var k :| 0 <= k < |sorted| && sorted[k] == t;
      assert s[k] == Entry(history)(t);
    }
  }

  lemma {:induction false} NoFrequencySumsToZero(s: seq<Item>)
    requires forall x :: x in s ==> x.frequency == 0
    ensures SumFrequency(s) == 0
  {
    if s != [] {
      assert s[|s| - 1] in s;
      NoFrequencySumsToZero(s[..|s| - 1]);
    }
  }

  /** Since no entry carries an id, the editor scores all of them under one
      key: every browser tab gets 0.7 times the recency of the last entry, the
      least recently used tab. */
  lemma SnapshotSharesOneScore(tabs: seq<BrowserTab>, history: map<int, int>, now: int, decay: int -> real)
    requires tabs != []
    ensures var s := Snapshot(tabs, history);
            var score := FinalScores(s, now, decay);
      && score.Keys == {Undefined}
      && forall x :: x in s ==> ScoreKey(score)(x) == Beta * RecencyOf(now, decay)(s[|s| - 1])
  {
    SnapshotSortedAndComplete(tabs, history);
    var s := Snapshot(tabs, history);
    var score := FinalScores(s, now, decay);
    assert s[|s| - 1] in s;
    NoFrequencySumsToZero(s);
    FinalScoreOfItem(s, now, decay, |s| - 1);
  }

  /** `onmessage`: the url handed to `activateTab` (absent when the message has
      none), or nothing when the message is malformed or asks for anything
      other than `activateTab`. */
  function ActivationRequest(msg: Option<WireObject>): Option<Option<Field>> {
    match msg
    case None => None
    case Some(m) =>
      if "action" in m && m["action"] == Text("activateTab") then
        Some(if "url" in m then Some(m["url"]) else None)
      else None
  }

  /** The activation message the editor sends, `{action: "activateTab", id}`,
      reaches `activateTab` without a url, whatever the id. */
  lemma EditorActivationHasNoUrl(id: Key)
    ensures ActivationRequest(Some(Encode("activateTab", "id", id))) == Some(None)
  {
  }

  /** A message carrying the tab's url reaches `activateTab` with that url. */
  lemma ActivationByUrlCarriesUrl(url: string)
    ensures ActivationRequest(Some(Encode("activateTab", "url", Str(url)))) == Some(Some(Text(url)))
  {
  }

  /** The search message the editor sends is ignored by the browser, and so is
      anything that does not parse. */
  lemma SearchAndMalformedIgnored(url: string)
    ensures ActivationRequest(Some(Encode("search", "url", Str(url)))) == None
    ensures ActivationRequest(None) == None
  {
    assert Encode("search", "url", Str(url))["action"] == Text("search");
  }

  class WebSocketManager {
    /** The socket (absent before the first connect) and its ready state. */
    var ws: Option<ReadyState>
    /** The tab lists transmitted so far. */
    var sent: seq<seq<Item>>

    constructor()
      ensures ws == Some(Connecting) && sent == []
    {
      ws := Some(Connecting);
      sent := [];
    }

    /** `connect`: a fresh socket, still connecting. */
    method Connect()
      modifies this
      ensures ws == Some(Connecting) && sent == old(sent)
    {
      ws := Some(Connecting);
    }

    /** The socket reports that it is open (`readyState` becomes `OPEN`). */
    method Opened()
      modifies this
      ensures ws == Some(Open) && sent == old(sent)
    {
      ws := Some(Open);
    }

    /** `send({tabs})`: transmitted only on an open socket, otherwise dropped. */
    method Send(tabs: seq<Item>)
      modifies this
      ensures ws == old(ws)
      ensures sent == if Transmits(ws) then old(sent) + [tabs] else old(sent)
    {
      if ws.Some? && ws.value == Open {
        sent := sent + [tabs];
      }
    }
  }

  class TabManager {
    var tabHistory: map<int, int>
    const webSocketManager: WebSocketManager

    constructor(webSocketManager: WebSocketManager)
      ensures tabHistory == map[] && this.webSocketManager == webSocketManager
    {
      tabHistory := map[];
      this.webSocketManager := webSocketManager;
    }

    /** Stamps the entry of `tabId` with `now`; no other entry changes. */
    method UpdateTabHistory(tabId: int, now: int)
      modifies this
      ensures tabHistory == old(tabHistory)[tabId := now]
    {
      tabHistory := tabHistory[tabId := now];
    }

    /** Fills in the missing entries, sorts the reported tabs by last access and
        sends their entries. */
    method SendTabsToVSCode(tabs: seq<BrowserTab>, now: int)
      modifies this, webSocketManager
      ensures tabHistory == Filled(old(tabHistory), tabs, now)
      ensures webSocketManager.ws == old(webSocketManager.ws)
      ensures webSocketManager.sent == old(webSocketManager.sent)
              + if Transmits(webSocketManager.ws) then [Snapshot(tabs, tabHistory)] else []
    {
      var i := 0;
      while i < |tabs|
        invariant 0 <= i <= |tabs|
        invariant tabHistory == Filled(old(tabHistory), tabs[..i], now)
        invariant webSocketManager.ws == old(webSocketManager.ws)
        invariant webSocketManager.sent == old(webSocketManager.sent)
      {
        FilledStep(old(tabHistory), tabs, i, now);
        if tabs[i].id !in tabHistory {
          UpdateTabHistory(tabs[i].id, now);
        }
        i := i + 1;
      }
      assert tabs[..i] == tabs;
      var sorted := StableSort.SortDesc(tabs, HistoryKey(tabHistory));
      var tabInfo := Seqs.Map(sorted, Entry(tabHistory));
      webSocketManager.Send(tabInfo);
    }

    /** The `onopen` handler, once the agent is attached: the socket is open,
        so the snapshot of the reported tabs is transmitted. */
    method OnOpen(tabs: seq<BrowserTab>, now: int)
      modifies this, webSocketManager
      ensures webSocketManager.ws == Some(Open)
      ensures tabHistory == Filled(old(tabHistory), tabs, now)
      ensures webSocketManager.sent == old(webSocketManager.sent) + [Snapshot(tabs, tabHistory)]
    {
      webSocketManager.Opened();
      SendTabsToVSCode(tabs, now);
    }

    /** The `onActivated` listener. */
    method OnActivated(tabId: int, tabs: seq<BrowserTab>, now: int)
      modifies this, webSocketManager
      ensures tabHistory == Filled(old(tabHistory)[tabId := now], tabs, now)
      ensures tabHistory[tabId] == now
      ensures webSocketManager.ws == old(webSocketManager.ws)
      ensures webSocketManager.sent == old(webSocketManager.sent)
              + if Transmits(webSocketManager.ws) then [Snapshot(tabs, tabHistory)] else []
    {
      UpdateTabHistory(tabId, now);
      SendTabsToVSCode(tabs, now);
    }

    /** The `onRemoved` listener: the entry of the removed tab goes. */
    method OnRemoved(tabId: int, tabs: seq<BrowserTab>, now: int)
      modifies this, webSocketManager
      ensures tabHistory == Filled(old(tabHistory) - {tabId}, tabs, now)
      ensures tabId !in TabIds(tabs) ==> tabId !in tabHistory
      ensures webSocketManager.ws == old(webSocketManager.ws)
      ensures webSocketManager.sent == old(webSocketManager.sent)
              + if Transmits(webSocketManager.ws) then [Snapshot(tabs, tabHistory)] else []
    {
      tabHistory := tabHistory - {tabId};
      SendTabsToVSCode(tabs, now);
    }

    /** `activateTab`, given the tabs the url query reports: only the first one
        is activated and stamped; with none, nothing happens. */
    method ActivateTab(matching: seq<BrowserTab>, tabs: seq<BrowserTab>, now: int) returns (activated: Option<int>)
      modifies this, webSocketManager
      ensures webSocketManager.ws == old(webSocketManager.ws)
      ensures matching == [] ==> activated == None && tabHistory == old(tabHistory)
                                 && webSocketManager.sent == old(webSocketManager.sent)
      ensures matching != [] ==> activated == Some(matching[0].id)
                                 && tabHistory == Filled(old(tabHistory)[matching[0].id := now], tabs, now)
                                 && tabHistory[matching[0].id] == now
                                 && webSocketManager.sent == old(webSocketManager.sent)
                                    + if Transmits(webSocketManager.ws) then [Snapshot(tabs, tabHistory)] else []
    {
      if |matching| > 0 {
        activated := Some(matching[0].id);
        UpdateTabHistory(matching[0].id, now);
        SendTabsToVSCode(tabs, now);
      } else {
        activated := None;
      }
    }
  }
}
