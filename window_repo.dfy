/**
 * The window repository (`WindowManager` in flowtabs/src/window/WindowManager.ts),
 * from the point where the window enumeration has been parsed: the list of
 * known windows, merged with each enumeration, and the access bookkeeping
 * driven by the active window id.
 */
module WindowRepo {
  import opened JsValues
  import opened Items
  import Seqs

  /** A window whose lower-cased process name is `chrome` or `code`
      (`excludedProcesses`). */
  predicate Excluded(w: Item) {
    w.Window? && (Lower(w.processName) == "chrome" || Lower(w.processName) == "code")
  }

  /** One iteration of the merge loop: a record whose id is known renames the
      first window with that id; any other record is appended as received. */
  function MergeStep(ws: seq<Item>, d: Item): (r: seq<Item>)
    ensures HasId(ws, d.id) ==> |r| == |ws| && forall i :: 0 <= i < |ws| ==> r[i].id == ws[i].id
    ensures HasId(ws, d.id) ==>
              var k := FirstWithId(ws, d.id).value;
              && r[k] == ws[k].(title := d.title)
              && forall i :: 0 <= i < |ws| && i != k ==> r[i] == ws[i]
    ensures !HasId(ws, d.id) ==> r == ws + [d]
  {
    match FirstWithId(ws, d.id)
    case None => ws + [d]
    case Some(i) => ws[i := ws[i].(title := d.title)]
  }

  /** The merge loop over the enumeration `data`, in order. */
  function MergeAll(ws: seq<Item>, data: seq<Item>): seq<Item> {
    if data == [] then ws else MergeStep(MergeAll(ws, data[..|data| - 1]), data[|data| - 1])
  }

  /** The filter's condition: the id was enumerated and the process is not
      excluded. */
  function Live(data: seq<Item>): Item -> bool {
    (w: Item) => HasId(data, w.id) && !Excluded(w)
  }

  /** The known windows after an enumeration: merged, then filtered. */
  function Merged(ws: seq<Item>, data: seq<Item>): (r: seq<Item>)
    ensures forall w :: w in r <==> w in MergeAll(ws, data) && HasId(data, w.id) && !Excluded(w)
    ensures Seqs.IsSubsequence(r, MergeAll(ws, data))
  {
    Seqs.FilterIsSubsequence(MergeAll(ws, data), Live(data));
    Seqs.Filter(MergeAll(ws, data), Live(data))
  }

  /** The state the repository keeps: one window per id, none excluded. */
  predicate Valid(ws: seq<Item>) {
    DistinctIds(ws) && forall w :: w in ws ==> !Excluded(w)
  }

  /** A known window with its title taken from the enumeration record with the
      same id, if there is one. */
  function RetitledBy(data: seq<Item>, w: Item): (r: Item)
    ensures r == w.(title := r.title)
  {
    match FirstWithId(data, w.id) case None => w case Some(j) => w.(title := data[j].title)
  }

  function Retitled(data: seq<Item>): Item -> Item {
    (w: Item) => RetitledBy(data, w)
  }

  /** A record whose id is not among the known windows. */
  function NotKnown(ws: seq<Item>): Item -> bool {
    (d: Item) => !HasId(ws, d.id)
  }

  lemma {:induction false} MergeStepKeepsDistinct(ws: seq<Item>, d: Item)
    requires DistinctIds(ws)
    ensures DistinctIds(MergeStep(ws, d))
  {
    var r := MergeStep(ws, d);
    if !HasId(ws, d.id) {
      forall i, j | 0 <= i < j < |r| ensures r[i].id != r[j].id {
        if j == |ws| {
          assert r[i] == ws[i] && ws[i] in ws;
        }
      }
    }
  }

  lemma {:induction false} MergeAllKeepsDistinct(ws: seq<Item>, data: seq<Item>)
    requires DistinctIds(ws)
    ensures DistinctIds(MergeAll(ws, data))
  {
    if data != [] {
      MergeAllKeepsDistinct(ws, data[..|data| - 1]);
      MergeStepKeepsDistinct(MergeAll(ws, data[..|data| - 1]), data[|data| - 1]);
    }
  }

  lemma {:induction false} FilterKeepsDistinct(s: seq<Item>, p: Item -> bool)
    requires DistinctIds(s)
    ensures DistinctIds(Seqs.Filter(s, p))
  {
    if s != [] {
      FilterKeepsDistinct(s[1..], p);
      var t := Seqs.Filter(s[1..], p);
      if p(s[0]) {
        var r := [s[0]] + t;
        forall i, j | 0 <= i < j < |r| ensures r[i].id != r[j].id {
          if i == 0 {
            assert r[j] in t;
            var k :| 0 <= k < |s[1..]| && s[1..][k] == r[j];
            assert s[k + 1] == r[j];
          } else {
            assert r[i] == t[i - 1] && r[j] == t[j - 1];
          }
        }
      }
    }
  }

  /** A merge keeps the repository valid, whatever the enumeration holds. */
  lemma MergedKeepsValid(ws: seq<Item>, data: seq<Item>)
    requires Valid(ws)
    ensures Valid(Merged(ws, data))
  {
    MergeAllKeepsDistinct(ws, data);
    FilterKeepsDistinct(MergeAll(ws, data), Live(data));
  }

  /** The effect on `Retitled` of one more enumeration record with a new id. */
  lemma RetitledSnoc(init: seq<Item>, d: Item, w: Item)
    requires !HasId(init, d.id)
    ensures RetitledBy(init + [d], w) == if w.id == d.id then w.(title := d.title) else RetitledBy(init, w)
  {
    FirstWithIdConcat(init, [d], w.id);
    assert (init + [d])[|init|] == d;
    if w.id != d.id && !HasId(init, w.id) {
      assert FirstWithId([d], w.id) == None;
    }
  }

  /** One more record whose id is known renames exactly the known window with
      that id. */
  lemma RetitledMapKnown(ws: seq<Item>, init: seq<Item>, d: Item, i: nat)
    requires DistinctIds(ws) && !HasId(init, d.id) && i < |ws| && ws[i].id == d.id
    ensures Seqs.Map(ws, Retitled(init + [d])) == Seqs.Map(ws, Retitled(init))[i := ws[i].(title := d.title)]
  {
    var a, a' := Seqs.Map(ws, Retitled(init)), Seqs.Map(ws, Retitled(init + [d]));
    forall j | 0 <= j < |ws| ensures a'[j] == a[i := ws[i].(title := d.title)][j] {
      RetitledSnoc(init, d, ws[j]);
    }
  }

  /** One more record with a new id renames no known window. */
  lemma RetitledMapNew(ws: seq<Item>, init: seq<Item>, d: Item)
    requires !HasId(init, d.id) && !HasId(ws, d.id)
    ensures Seqs.Map(ws, Retitled(init + [d])) == Seqs.Map(ws, Retitled(init))
  {
    var a, a' := Seqs.Map(ws, Retitled(init)), Seqs.Map(ws, Retitled(init + [d]));
    forall j | 0 <= j < |ws| ensures a'[j] == a[j] {
      RetitledSnoc(init, d, ws[j]);
      assert ws[j] in ws;
    }
  }

  /** Renamed known windows followed by anything are looked up like the known
      windows. */
  lemma FirstInRetitled(ws: seq<Item>, init: seq<Item>, b: seq<Item>, k: Key)
    requires HasId(ws, k)
    ensures FirstWithId(Seqs.Map(ws, Retitled(init)) + b, k) == FirstWithId(ws, k)
  {
    var a := Seqs.Map(ws, Retitled(init));
    FirstWithIdSameIds(a, ws, k);
    FirstWithIdConcat(a, b, k);
    var i := FirstWithId(ws, k).value;
    assert a[i] in a;
  }

  lemma MergeStepAt(m: seq<Item>, d: Item, i: nat)
    requires FirstWithId(m, d.id) == Some(i)
    ensures MergeStep(m, d) == m[i := m[i].(title := d.title)]
  {
  }

  lemma UpdateInFirstPart<T>(a: seq<T>, b: seq<T>, i: nat, x: T)
    requires i < |a|
    ensures (a + b)[i := x] == a[i := x] + b
  {
  }

  /** The merge step for a record whose id is known. */
  lemma MergeStepKnown(ws: seq<Item>, init: seq<Item>, d: Item)
    requires DistinctIds(ws) && !HasId(init, d.id) && HasId(ws, d.id)
    ensures MergeStep(Seqs.Map(ws, Retitled(init)) + Seqs.Filter(init, NotKnown(ws)), d)
            == Seqs.Map(ws, Retitled(init + [d])) + Seqs.Filter(init + [d], NotKnown(ws))
  {
    var a: seq<Item>, b: seq<Item> := Seqs.Map(ws, Retitled(init)), Seqs.Filter(init, NotKnown(ws));
    var i := FirstWithId(ws, d.id).value;
    var x := ws[i].(title := d.title);
    FirstInRetitled(ws, init, b, d.id);
    assert (a + b)[i].(title := d.title) == x by {
      assert (a + b)[i] == RetitledBy(init, ws[i]);
    }
    MergeStepAt(a + b, d, i);
    UpdateInFirstPart(a, b, i, x);
    RetitledMapKnown(ws, init, d, i);
    Seqs.FilterConcat(init, [d], NotKnown(ws));
    assert Seqs.Filter([d], NotKnown(ws)) == [] by { assert ws[i] in ws; }
    assert MergeStep(a + b, d) == a[i := x] + b;
    assert Seqs.Map(ws, Retitled(init + [d])) == a[i := x];
    assert Seqs.Filter(init + [d], NotKnown(ws)) == b;
  }

  /** The merge step for a record whose id is new. */
  lemma MergeStepNew(ws: seq<Item>, init: seq<Item>, d: Item)
    requires !HasId(init, d.id) && !HasId(ws, d.id)
    ensures MergeStep(Seqs.Map(ws, Retitled(init)) + Seqs.Filter(init, NotKnown(ws)), d)
            == Seqs.Map(ws, Retitled(init + [d])) + Seqs.Filter(init + [d], NotKnown(ws))
  {
    var a: seq<Item>, b: seq<Item> := Seqs.Map(ws, Retitled(init)), Seqs.Filter(init, NotKnown(ws));
    NewIdNotRetitled(ws, init, b, d.id);
    assert MergeStep(a + b, d) == a + b + [d];
    RetitledMapNew(ws, init, d);
    Seqs.FilterConcat(init, [d], NotKnown(ws));
    assert Seqs.Filter([d], NotKnown(ws)) == [d];
    assert Seqs.Map(ws, Retitled(init + [d])) == a;
    assert Seqs.Filter(init + [d], NotKnown(ws)) == b + [d];
    Seqs.AppendAssoc(a, b, [d]);
  }

  /** An id absent from the known windows and from the new records is absent
      after renaming. */
  lemma NewIdNotRetitled(ws: seq<Item>, init: seq<Item>, b: seq<Item>, k: Key)
    requires !HasId(init, k) && !HasId(ws, k)
    requires forall x :: x in b ==> x in init
    ensures !HasId(Seqs.Map(ws, Retitled(init)) + b, k)
  {
    var a := Seqs.Map(ws, Retitled(init));
    forall x | x in a + b ensures x.id != k {
      if x in a {
        var j :| 0 <= j < |a| && a[j] == x;
        assert ws[j] in ws;
      } else {
        assert x in init;
      }
    }
  }

  /** For an enumeration with distinct ids, merging into a list with distinct
      ids renames the known windows in place and appends the records with new
      ids, as received, in enumeration order. */
  lemma {:induction false} MergeAllCharacterised(ws: seq<Item>, data: seq<Item>)
    requires DistinctIds(ws) && DistinctIds(data)
    ensures MergeAll(ws, data) == Seqs.Map(ws, Retitled(data)) + Seqs.Filter(data, NotKnown(ws))
  {
    if data == [] {
      assert Seqs.Map(ws, Retitled(data)) == ws;
    } else {
      var init, d := data[..|data| - 1], data[|data| - 1];
      assert data == init + [d];
      assert !HasId(init, d.id);
      MergeAllCharacterised(ws, init);
      if HasId(ws, d.id) {
        MergeStepKnown(ws, init, d);
      } else {
        MergeStepNew(ws, init, d);
      }
    }
  }

  /** For an enumeration with distinct ids: the known windows that stay come
      first, renamed, in their old order; the new windows that stay follow in
      enumeration order. */
  lemma MergedOrder(ws: seq<Item>, data: seq<Item>)
    requires DistinctIds(ws) && DistinctIds(data)
    ensures Merged(ws, data)
            == Seqs.Filter(Seqs.Map(ws, Retitled(data)), Live(data))
               + Seqs.Filter(Seqs.Filter(data, NotKnown(ws)), Live(data))
  {
    MergeAllCharacterised(ws, data);
    Seqs.FilterConcat(Seqs.Map(ws, Retitled(data)), Seqs.Filter(data, NotKnown(ws)), Live(data));
  }

  /** A known window that is enumerated again and not excluded stays, with its
      title taken from the enumeration and every other field (usage counters,
      icon, process) as it was. */
  lemma KnownWindowKeepsUsage(ws: seq<Item>, data: seq<Item>, i: nat)
    requires DistinctIds(ws) && DistinctIds(data)
    requires i < |ws| && HasId(data, ws[i].id) && !Excluded(ws[i])
    ensures ws[i].(title := data[FirstWithId(data, ws[i].id).value].title) in Merged(ws, data)
  {
    MergeAllCharacterised(ws, data);
    var a := Seqs.Map(ws, Retitled(data));
    assert a[i] in a;
  }

  /** A window enumerated for the first time and not excluded is added exactly
      as received. */
  lemma NewWindowAddedAsReceived(ws: seq<Item>, data: seq<Item>, j: nat)
    requires DistinctIds(ws) && DistinctIds(data)
    requires j < |data| && !HasId(ws, data[j].id) && !Excluded(data[j])
    ensures data[j] in Merged(ws, data)
  {
    MergeAllCharacterised(ws, data);
    assert data[j] in data;
    assert data[j] in Seqs.Filter(data, NotKnown(ws));
  }

  /** On a valid list, every enumerated record that is not excluded has its id
      among the windows kept. */
  lemma MergedCoversLiveRecords(ws: seq<Item>, data: seq<Item>, d: Item)
    requires Valid(ws) && DistinctIds(data) && d in data && !Excluded(d)
    ensures HasId(Merged(ws, data), d.id)
  {
    MergeAllCharacterised(ws, data);
    var a := Seqs.Map(ws, Retitled(data));
    if HasId(ws, d.id) {
      var j :| 0 <= j < |ws| && ws[j].id == d.id;
      var w := RetitledBy(data, ws[j]);
      assert a[j] == w;
      assert w.id == d.id && !Excluded(w) by {
        assert ws[j] in ws;
        assert w == ws[j].(title := w.title);
      }
      assert w in MergeAll(ws, data) by { assert a[j] in a; }
      assert HasId(data, w.id);
      assert w in Merged(ws, data);
    } else {
      assert d in Seqs.Filter(data, NotKnown(ws));
      assert d in Merged(ws, data);
    }
  }

  /** A window kept by a merge already carries the title the enumeration gives
      it. */
  lemma MergedFixed(ws: seq<Item>, data: seq<Item>, w: Item)
    requires DistinctIds(ws) && DistinctIds(data) && w in Merged(ws, data)
    ensures RetitledBy(data, w) == w
  {
    MergeAllCharacterised(ws, data);
    var a := Seqs.Map(ws, Retitled(data));
    var k := FirstWithId(data, w.id).value;
    if w in a {
      var j :| 0 <= j < |a| && a[j] == w;
      assert w == ws[j].(title := data[k].title);
    } else {
      var k' :| 0 <= k' < |data| && data[k'] == w;
      assert k' == k;
    }
  }

  /** Merging the same enumeration twice, with no activation in between, gives
      the same windows as merging it once. */
  lemma MergeIdempotent(ws: seq<Item>, data: seq<Item>)
    requires Valid(ws) && DistinctIds(data)
    ensures Merged(Merged(ws, data), data) == Merged(ws, data)
  {
    var m := Merged(ws, data);
    MergedKeepsValid(ws, data);
    MergeAllCharacterised(m, data);
    var n := Seqs.Filter(data, NotKnown(m));
    assert Seqs.Map(m, Retitled(data)) == m by {
      forall j | 0 <= j < |m| ensures RetitledBy(data, m[j]) == m[j] {
        MergedFixed(ws, data, m[j]);
      }
    }
    Seqs.FilterConcat(m, n, Live(data));
    Seqs.FilterAllKept(m, Live(data));
    forall x | x in n ensures !Live(data)(x) {
      if !Excluded(x) {
        MergedCoversLiveRecords(ws, data, x);
      }
    }
    Seqs.FilterNoneKept(n, Live(data));
  }

  /** Without validity the merge is not idempotent: an excluded window that is
      re-enumerated under another process is dropped by the first merge and
      added back by the second. */
  lemma MergeNotIdempotentWithoutValid()
    ensures var ws := [Window(Num(1), "a", "code", "", "", None, 0)];
            var data := [Window(Num(1), "b", "vim", "", "", None, 0)];
            Merged(Merged(ws, data), data) != Merged(ws, data)
  {
    var w := Window(Num(1), "a", "code", "", "", None, 0);
    var d := Window(Num(1), "b", "vim", "", "", None, 0);
    var ws, data := [w], [d];
    assert Excluded(w) by { assert Lower("code") == "code"; }
    assert !Excluded(d) by { assert Lower("vim") == "vim"; }
    assert HasId(ws, d.id) by { assert w in ws; }
    assert HasId(data, d.id) by { assert d in data; }
    assert FirstWithId(ws, d.id) == Some(0);
    assert MergeAll(ws, data) == MergeStep(ws, d);
    assert MergeAll(ws, data) == [Window(Num(1), "b", "code", "", "", None, 0)];
    assert Merged(ws, data) == [] by {
      Seqs.FilterNoneKept(MergeAll(ws, data), Live(data));
    }
    assert MergeAll([], data) == MergeStep([], d) == [d];
    Seqs.FilterAllKept([d], Live(data));
  }

  /** `activeWindow.lastAccessed = Date.now()` on the first window with the id. */
  function Stamped(ws: seq<Item>, active: Key, now: int): seq<Item> {
    match FirstWithId(ws, active)
    case None => ws
    case Some(i) => ws[i := ws[i].(lastAccessed := Some(now))]
  }

  /** `updateWindowsFrequency`: one more use of the first window with the id,
      unless it was already the active one (`frequency ? frequency + 1 : 1`). */
  function Counted(ws: seq<Item>, active: Key, lastWindow: Key): seq<Item> {
    match FirstWithId(ws, active)
    case None => ws
    case Some(i) => if active != lastWindow then ws[i := ws[i].(frequency := ws[i].frequency + 1)] else ws
  }

  /** The windows after an activation report. */
  function Activated(ws: seq<Item>, active: Key, lastWindow: Key, now: int): seq<Item> {
    Counted(Stamped(ws, active, now), active, lastWindow)
  }

  lemma StampedKeepsIds(ws: seq<Item>, active: Key, now: int)
    ensures |Stamped(ws, active, now)| == |ws|
    ensures forall j :: 0 <= j < |ws| ==> Stamped(ws, active, now)[j].id == ws[j].id
    ensures FirstWithId(Stamped(ws, active, now), active) == FirstWithId(ws, active)
  {
    FirstWithIdSameIds(Stamped(ws, active, now), ws, active);
  }

  lemma StampedAt(ws: seq<Item>, active: Key, now: int, i: nat)
    requires i < |ws| && FirstWithId(ws, active) == Some(i)
    ensures Stamped(ws, active, now) == ws[i := ws[i].(lastAccessed := Some(now))]
  {
  }

  lemma CountedAt(ws: seq<Item>, active: Key, lastWindow: Key, i: nat)
    requires i < |ws| && FirstWithId(ws, active) == Some(i)
    ensures active != lastWindow ==> Counted(ws, active, lastWindow) == ws[i := ws[i].(frequency := ws[i].frequency + 1)]
    ensures active == lastWindow ==> Counted(ws, active, lastWindow) == ws
  {
  }

  /** Stamping then counting one item is one update of both fields. */
  lemma StampThenCount(w: Item, now: int, inc: nat)
    ensures var s := w.(lastAccessed := Some(now));
            s.(frequency := s.frequency + inc) == w.(lastAccessed := Some(now), frequency := w.frequency + inc)
  {
    match w
    case Tab(_, _, _, _, _, _) =>
    case Window(_, _, _, _, _, _, _) =>
  }

  /** Activating a known window stamps it with `now` and counts one more use
      exactly when its id differs from the previous active id; every other
      window, and every other field, is untouched. */
  lemma ActivateKnownWindow(ws: seq<Item>, active: Key, lastWindow: Key, now: int, i: nat)
    requires i < |ws| && FirstWithId(ws, active) == Some(i)
    ensures var r := Activated(ws, active, lastWindow, now);
      && |r| == |ws|
      && r[i] == ws[i].(lastAccessed := Some(now),
                        frequency := ws[i].frequency + if active != lastWindow then 1 else 0)
      && forall j :: 0 <= j < |ws| && j != i ==> r[j] == ws[j]
  {
    StampedAt(ws, active, now, i);
    StampedKeepsIds(ws, active, now);
    var st := Stamped(ws, active, now);
    CountedAt(st, active, lastWindow, i);
    StampThenCount(ws[i], now, if active != lastWindow then 1 else 0);
  }

  /** Replacing one window by another with the same id and, for a window, the
      same process keeps the list valid. */
  lemma UpdateKeepsValid(ws: seq<Item>, i: nat, w: Item)
    requires Valid(ws) && i < |ws|
    requires w.id == ws[i].id && w.Window? == ws[i].Window?
    requires w.Window? ==> w.processName == ws[i].processName
    ensures Valid(ws[i := w])
  {
    var r := ws[i := w];
    forall x | x in r ensures !Excluded(x) {
      var j :| 0 <= j < |r| && r[j] == x;
      assert ws[j] in ws;
    }
  }

  /** Stamping and counting touch neither ids nor processes, so an activation
      keeps the known windows valid. */
  lemma {:induction false} ActivatedKeepsValid(ws: seq<Item>, active: Key, lastWindow: Key, now: int)
    requires Valid(ws)
    ensures Valid(Activated(ws, active, lastWindow, now))
  {
    match FirstWithId(ws, active)
    case None =>
      ActivateUnknownId(ws, active, lastWindow, now);
    case Some(i) =>
      ActivateKnownWindow(ws, active, lastWindow, now, i);
      var r := Activated(ws, active, lastWindow, now);
      assert r == ws[i := r[i]];
      UpdateKeepsValid(ws, i, r[i]);
  }

  /** An active id that matches no window changes no window. */
  lemma ActivateUnknownId(ws: seq<Item>, active: Key, lastWindow: Key, now: int)
    requires !HasId(ws, active)
    ensures Activated(ws, active, lastWindow, now) == ws
  {
  }

  /** A second report of the same active window moves its stamp but does not
      count another use. */
  lemma RepeatedActivationCountsOnce(ws: seq<Item>, active: Key, lastWindow: Key, t1: int, t2: int)
    ensures var r1 := Activated(ws, active, lastWindow, t1);
            var r2 := Activated(r1, active, active, t2);
      && |r2| == |r1|
      && forall j :: 0 <= j < |r1| ==> r2[j].id == r1[j].id && r2[j].frequency == r1[j].frequency
  {
    var r1 := Activated(ws, active, lastWindow, t1);
    StampedKeepsIds(r1, active, t2);
  }

  /** As written, the active id is the trimmed text of the report, so it never
      equals a numeric window id: no window is ever stamped or counted. */
  lemma NumericIdsNeverActivated(ws: seq<Item>, raw: string, lastWindow: Key, now: int)
    requires forall w :: w in ws ==> w.id.Num?
    ensures Activated(ws, Str(Trim(raw)), lastWindow, now) == ws
  {
  }

  /** With the report parsed to a number, a window whose id is that number is
      stamped with `now`. */
  lemma NumericActivationStampsWindow(ws: seq<Item>, id: int, lastWindow: Key, now: int)
    requires HasId(ws, Num(id))
    ensures var r := Activated(ws, Num(id), lastWindow, now);
      exists i :: 0 <= i < |r| && r[i].id == Num(id) && r[i].lastAccessed == Some(now)
  {
    var i := FirstWithId(ws, Num(id)).value;
    ActivateKnownWindow(ws, Num(id), lastWindow, now, i);
  }

  /** The known windows and the id last reported as active. */
  class WindowManager {
    var windows: seq<Item>
    var lastWindow: Key

    constructor()
      ensures windows == [] && lastWindow == Num(0)
      ensures Valid(windows)
    {
      windows := [];
      lastWindow := Num(0);
    }

    function GetWindows(): seq<Item>
      reads this
    {
      windows
    }

    /** `getAllWindows` once the enumeration has been parsed into `data`: the
        merge loop, then the filter. */
    method GetAllWindows(data: seq<Item>)
      modifies this
      ensures windows == Merged(old(windows), data)
      ensures lastWindow == old(lastWindow)
      ensures Valid(old(windows)) ==> Valid(windows)
    {
      var i := 0;
      while i < |data|
        invariant 0 <= i <= |data|
        invariant windows == MergeAll(old(windows), data[..i])
        invariant lastWindow == old(lastWindow)
      {
        var d := data[i];
        assert data[..i + 1][..i] == data[..i];
        match FirstWithId(windows, d.id) {
          case None =>
            windows := windows + [d];
          case Some(j) =>
            windows := windows[j := windows[j].(title := d.title)];
        }
        i := i + 1;
      }
      assert data[..i] == data;
      windows := Seqs.Filter(windows, Live(data));
      if Valid(old(windows)) {
        MergedKeepsValid(old(windows), data);
      }
    }

    /** The shared body of the activation handlers: stamps and counts the window
        with id `active`, then remembers `active`, matched or not. */
    method Activate(active: Key, now: int)
      modifies this
      ensures windows == Activated(old(windows), active, old(lastWindow), now)
      ensures lastWindow == active
      ensures Valid(old(windows)) ==> Valid(windows)
    {
      if Valid(windows) {
        ActivatedKeepsValid(windows, active, lastWindow, now);
      }
      match FirstWithId(windows, active) {
        case None =>
        case Some(i) =>
          StampedKeepsIds(windows, active, now);
          windows := windows[i := windows[i].(lastAccessed := Some(now))];
          UpdateWindowsFrequency(active);
      }
      lastWindow := active;
    }

    method UpdateWindowsFrequency(active: Key)
      modifies this
      ensures windows == Counted(old(windows), active, lastWindow)
      ensures lastWindow == old(lastWindow)
      ensures Valid(old(windows)) ==> Valid(windows)
    {
      match FirstWithId(windows, active)
      case None =>
      case Some(i) =>
        if active != lastWindow {
          if Valid(windows) {
            UpdateKeepsValid(windows, i, windows[i].(frequency := windows[i].frequency + 1));
          }
          windows := windows[i := windows[i].(frequency := windows[i].frequency + 1)];
        }
    }

    /** `getActiveWindow` as written, given the raw report: the active id is the
        trimmed text. */
    method GetActiveWindow(raw: string, now: int)
      modifies this
      ensures windows == Activated(old(windows), Str(Trim(raw)), old(lastWindow), now)
      ensures lastWindow == Str(Trim(raw))
      ensures Valid(old(windows)) ==> Valid(windows)
    {
      Activate(Str(Trim(raw)), now);
    }

    /** `getActiveWindow` with the report parsed to the numeric window id it
        names. */
    method GetActiveWindowById(id: int, now: int)
      modifies this
      ensures windows == Activated(old(windows), Num(id), old(lastWindow), now)
      ensures lastWindow == Num(id)
      ensures Valid(old(windows)) ==> Valid(windows)
    {
      Activate(Num(id), now);
    }
  }
}
