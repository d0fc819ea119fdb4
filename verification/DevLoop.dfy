/** The dev loop's rounds and the page that follows them: the classifier (crates/vilan-cli/src/hmr.rs),
    the channel's pushes, and the page's handling of them (crates/vilan-cli/src/hmr_shim.js). */
module DevLoop {
  import opened Basics

  datatype Leg = Leg(name: string, browser: bool, bundle: string, css: Option<string>)

  datatype Push = Swap | Css(sheets: seq<string>)

  datatype Decision = Decision(restartServer: bool, push: Option<Push>, bumpVersion: bool)

  function SheetName(leg: string): string {
    leg + ".css"
  }

  lemma SheetNameInjective(a: string, b: string)
    ensures SheetName(a) == SheetName(b) ==> a == b
  {
    assert SheetName(a)[..|SheetName(a)| - 4] == a && SheetName(b)[..|SheetName(b)| - 4] == b;
  }

  function Find(legs: seq<Leg>, name: string): (r: Option<Leg>)
    ensures r.None? <==> forall leg :: leg in legs ==> leg.name != name
    ensures r.Some? ==> r.value in legs && r.value.name == name
  {
    if legs == [] then None else if legs[0].name == name then Some(legs[0]) else Find(legs[1..], name)
  }

  // ----- what a round changed -----

  /** The leg's bundle is another than it was, or the leg is new. */
  predicate BundleMoved(previous: seq<Leg>, leg: Leg) {
    var was := Find(previous, leg.name);
    was.None? || was.value.bundle != leg.bundle
  }

  predicate SheetMoved(previous: seq<Leg>, leg: Leg) {
    var was := Find(previous, leg.name);
    was.Some? && was.value.css.Some? != leg.css.Some?
  }

  predicate SheetRewritten(previous: seq<Leg>, leg: Leg) {
    var was := Find(previous, leg.name);
    leg.browser && was.Some? && was.value.css.Some? && leg.css.Some? && was.value.css != leg.css
  }

  predicate Vanished(next: seq<Leg>, was: Leg) {
    Find(next, was.name).None?
  }

  /** The browser legs' output set moved: a bundle, or a stylesheet's presence. */
  ghost predicate BrowserMoved(previous: seq<Leg>, next: seq<Leg>) {
    || BrowserLegMoved(previous, next)
    || (exists was :: was in previous && was.browser && Vanished(next, was))
  }

  ghost predicate ServerMoved(previous: seq<Leg>, next: seq<Leg>, server: Option<string>) {
    || ServerLegMoved(previous, next, server)
    || (exists was :: was in previous && !was.browser && server == Some(was.name) && Vanished(next, was))
  }

  function Rewritten(previous: seq<Leg>, next: seq<Leg>): seq<string> {
    if next == [] then []
    else
      var leg := next[|next| - 1];
      Rewritten(previous, next[..|next| - 1]) + if SheetRewritten(previous, leg) then [SheetName(leg.name)] else []
  }

  lemma {:induction false} RewrittenNames(previous: seq<Leg>, next: seq<Leg>, sheet: string)
    ensures sheet in Rewritten(previous, next) <==>
            exists leg :: leg in next && SheetRewritten(previous, leg) && sheet == SheetName(leg.name)
  {
    if next != [] {
      RewrittenNames(previous, next[..|next| - 1], sheet);
      assert next == next[..|next| - 1] + [next[|next| - 1]];
    }
  }

  /** Some browser leg's outputs are others than they were. */
  ghost predicate BrowserLegMoved(previous: seq<Leg>, next: seq<Leg>) {
    exists leg :: leg in next && BrowserLegMoves(previous, leg)
  }

  predicate BrowserLegMoves(previous: seq<Leg>, leg: Leg) {
    leg.browser && (BundleMoved(previous, leg) || SheetMoved(previous, leg))
  }

  ghost predicate ServerLegMoved(previous: seq<Leg>, next: seq<Leg>, server: Option<string>) {
    exists leg :: leg in next && ServerLegMoves(previous, leg, server)
  }

  predicate ServerLegMoves(previous: seq<Leg>, leg: Leg, server: Option<string>) {
    !leg.browser && server == Some(leg.name) && BundleMoved(previous, leg)
  }

  lemma OneMoreLeg(previous: seq<Leg>, next: seq<Leg>, leg: Leg, server: Option<string>)
    ensures BrowserLegMoved(previous, next + [leg]) <==>
            BrowserLegMoved(previous, next) || BrowserLegMoves(previous, leg)
    ensures ServerLegMoved(previous, next + [leg], server) <==>
            ServerLegMoved(previous, next, server) || ServerLegMoves(previous, leg, server)
    ensures Rewritten(previous, next + [leg])
         == Rewritten(previous, next) + if SheetRewritten(previous, leg) then [SheetName(leg.name)] else []
  {
    assert (next + [leg])[..|next|] == next;
    assert leg in next + [leg];
  }

  /** What the legs of this round say: whether the browser's outputs or the server moved, and the
      sheets only rewritten. */
  method NoteChanges(previous: seq<Leg>, next: seq<Leg>, server: Option<string>)
    returns (browserChanged: bool, serverChanged: bool, changedCss: seq<string>)
    ensures changedCss == Rewritten(previous, next)
    ensures browserChanged <==> BrowserLegMoved(previous, next)
    ensures serverChanged <==> ServerLegMoved(previous, next, server)
  {
    browserChanged, serverChanged, changedCss := false, false, [];
    var presenceChanged := false;
    for i := 0 to |next|
      invariant changedCss == Rewritten(previous, next[..i])
      invariant browserChanged || presenceChanged <==> BrowserLegMoved(previous, next[..i])
      invariant serverChanged <==> ServerLegMoved(previous, next[..i], server)
    {
      var leg := next[i];
      OneMoreLeg(previous, next[..i], leg, server);
      assert next[..i + 1] == next[..i] + [leg];
      var was := Find(previous, leg.name);
      if was.None? || was.value.bundle != leg.bundle {
        if leg.browser {
          browserChanged := true;
        } else if server == Some(leg.name) {
          serverChanged := true;
        }
      }
      if was.Some? && leg.browser {
        if was.value.css.Some? && leg.css.Some? {
          if was.value.css != leg.css {
            changedCss := changedCss + [SheetName(leg.name)];
          }
        } else if was.value.css.Some? || leg.css.Some? {
          presenceChanged := true;
        }
      }
    }
    assert next[..|next|] == next;
    browserChanged := browserChanged || presenceChanged;
  }

  /** A leg that vanished is a change of its class. */
  method NoteVanished(previous: seq<Leg>, next: seq<Leg>, server: Option<string>)
    returns (browserChanged: bool, serverChanged: bool)
    ensures browserChanged <==> exists was :: was in previous && was.browser && Vanished(next, was)
    ensures serverChanged <==>
            exists was :: was in previous && !was.browser && server == Some(was.name) && Vanished(next, was)
  {
    browserChanged, serverChanged := false, false;
    for i := 0 to |previous|
      invariant browserChanged <==> exists was :: was in previous[..i] && was.browser && Vanished(next, was)
      invariant serverChanged <==>
                exists was :: was in previous[..i] && !was.browser && server == Some(was.name) && Vanished(next, was)
    {
      var was := previous[i];
      assert previous[..i + 1] == previous[..i] + [was];
      if Find(next, was.name).None? {
        if was.browser {
          browserChanged := true;
        } else if server == Some(was.name) {
          serverChanged := true;
        }
      }
    }
    assert previous[..|previous|] == previous;
  }

  method Classify(previous: seq<Leg>, next: seq<Leg>, server: Option<string>) returns (d: Decision)
    ensures previous == [] ==> d == Decision(true, None, true)
    ensures previous != [] ==>
              && (d.bumpVersion <==> BrowserMoved(previous, next))
              && (d.restartServer <==> ServerMoved(previous, next, server))
              && d.push == Decided(previous, next)
  {
    if previous == [] {
      return Decision(true, None, true);
    }
    var browserChanged, serverChanged, changedCss := NoteChanges(previous, next, server);
    var browserVanished, serverVanished := NoteVanished(previous, next, server);
    browserChanged, serverChanged := browserChanged || browserVanished, serverChanged || serverVanished;
    d := Decision(serverChanged,
                  if browserChanged then Some(Swap) else if changedCss != [] then Some(Css(changedCss)) else None,
                  browserChanged);
  }

  // ----- the page -----

  /** A stylesheet <link>, with the text it loaded. */
  datatype Link = Link(text: string, disabled: bool)

  /** One sheet name in the document: the links that name it, and the <style> that supersedes them. */
  datatype Sheet = Sheet(links: seq<Link>, shadow: Option<string>)

  datatype Page = Page(leg: string, bundle: string, version: nat, sheets: map<string, Sheet>)

  /** The files the channel serves: a sheet's file outlives the round that last wrote it. */
  datatype Dist = Dist(bundles: map<string, string>, sheets: map<string, string>)

  datatype Event = SwapEvent(version: nat, sheets: seq<string>) | CssEvent(sheet: string)

  function SheetOf(p: Page, name: string): Sheet {
    if name in p.sheets then p.sheets[name] else Sheet([], None)
  }

  function Disabled(links: seq<Link>): seq<Link> {
    seq(|links|, i requires 0 <= i < |links| => links[i].(disabled := true))
  }

  /** Whether the document is a place the sheet can land: it links it, or it is the page's own. */
  predicate AppliesHere(p: Page, name: string) {
    SheetOf(p, name).links != [] || name == SheetName(p.leg)
  }

  function FetchedAndApplied(p: Page, d: Dist, name: string): Page {
    if AppliesHere(p, name) && name in d.sheets then
      p.(sheets := p.sheets[name := Sheet(Disabled(SheetOf(p, name).links), Some(d.sheets[name]))])
    else p
  }

  function OwnSheetWithdrawn(p: Page): Page {
    var own := SheetName(p.leg);
    p.(sheets := p.sheets[own := Sheet(Disabled(SheetOf(p, own).links), None)])
  }

  function AllApplied(p: Page, d: Dist, names: seq<string>): Page {
    if names == [] then p else FetchedAndApplied(AllApplied(p, d, names[..|names| - 1]), d, names[|names| - 1])
  }

  function Reconciled(p: Page, d: Dist, names: seq<string>): Page {
    var applied := AllApplied(p, d, names);
    if SheetName(p.leg) in names then applied else OwnSheetWithdrawn(applied)
  }

  function Refetched(p: Page, d: Dist, version: nat): Page {
    if p.leg in d.bundles then p.(bundle := d.bundles[p.leg], version := version) else p
  }

  function Handled(p: Page, d: Dist, e: Event): Page {
    match e
    case SwapEvent(version, sheets) => Refetched(Reconciled(p, d, sheets), d, version)
    case CssEvent(sheet) => FetchedAndApplied(p, d, sheet)
  }

  // ----- what a page shows -----

  /** The sheet shows exactly `text`: its links and its <style>, as far as enabled, all carry it. */
  predicate Shows(s: Sheet, text: string) {
    && (s.shadow.Some? || exists i :: 0 <= i < |s.links| && !s.links[i].disabled)
    && (s.shadow.Some? ==> s.shadow.value == text)
    && (forall i :: 0 <= i < |s.links| && !s.links[i].disabled ==> s.links[i].text == text)
  }

  predicate Absent(s: Sheet) {
    s.shadow.None? && forall i :: 0 <= i < |s.links| ==> s.links[i].disabled
  }

  lemma AppliedShows(p: Page, d: Dist, name: string)
    requires AppliesHere(p, name) && name in d.sheets
    ensures Shows(SheetOf(FetchedAndApplied(p, d, name), name), d.sheets[name])
  {
  }

  /** The names a page already placed, and how, are the only ones a reconcile touches. */
  lemma {:induction false} AppliedSheets(p: Page, d: Dist, names: seq<string>, name: string)
    ensures var q := AllApplied(p, d, names);
            && q.leg == p.leg && q.bundle == p.bundle && q.version == p.version
            && (forall n :: |SheetOf(q, n).links| == |SheetOf(p, n).links|)
            && (name !in names ==> SheetOf(q, name) == SheetOf(p, name))
            && (name in names && AppliesHere(p, name) && name in d.sheets ==> Shows(SheetOf(q, name), d.sheets[name]))
  {
    if names != [] {
      var before := names[..|names| - 1];
      AppliedSheets(p, d, before, name);
      assert names == before + [names[|names| - 1]];
      var q := AllApplied(p, d, before);
      if names[|names| - 1] == name && AppliesHere(p, name) && name in d.sheets { AppliedShows(q, d, name); }
    }
  }

  // ----- rounds -----

  ghost predicate Unique(legs: seq<Leg>) {
    forall i, j :: 0 <= i < j < |legs| ==> legs[i].name != legs[j].name
  }

  ghost predicate StableKinds(previous: seq<Leg>, next: seq<Leg>) {
    forall was, leg :: was in previous && leg in next && was.name == leg.name ==> was.browser == leg.browser
  }

  lemma {:induction false} FindUnique(legs: seq<Leg>, leg: Leg)
    requires Unique(legs) && leg in legs
    ensures Find(legs, leg.name) == Some(leg)
  {
    if legs[0] != leg {
      var i :| 0 <= i < |legs| && legs[i] == leg;
      assert legs[1..][i - 1] == leg;
      FindUnique(legs[1..], leg);
    }
  }

  /** The complete browser stylesheet set. */
  function SheetsOf(legs: seq<Leg>): seq<string> {
    if legs == [] then []
    else
      var leg := legs[|legs| - 1];
      SheetsOf(legs[..|legs| - 1]) + if leg.browser && leg.css.Some? then [SheetName(leg.name)] else []
  }

  lemma {:induction false} SheetsOfNames(legs: seq<Leg>, sheet: string)
    ensures sheet in SheetsOf(legs) <==>
            exists leg :: leg in legs && leg.browser && leg.css.Some? && sheet == SheetName(leg.name)
  {
    if legs != [] {
      SheetsOfNames(legs[..|legs| - 1], sheet);
      assert legs == legs[..|legs| - 1] + [legs[|legs| - 1]];
    }
  }

  /** Each leg's files written over what `dist/` held. */
  function Written(d: Dist, legs: seq<Leg>): Dist {
    if legs == [] then d
    else
      var before := Written(d, legs[..|legs| - 1]);
      var leg := legs[|legs| - 1];
      Dist(before.bundles[leg.name := leg.bundle],
           if leg.css.Some? then before.sheets[SheetName(leg.name) := leg.css.value] else before.sheets)
  }

  lemma {:induction false} WrittenHolds(d: Dist, legs: seq<Leg>, leg: Leg)
    requires Unique(legs) && leg in legs
    ensures var w := Written(d, legs);
            && leg.name in w.bundles && w.bundles[leg.name] == leg.bundle
            && (leg.css.Some? ==> SheetName(leg.name) in w.sheets && w.sheets[SheetName(leg.name)] == leg.css.value)
  {
    var last := legs[|legs| - 1];
    if last != leg {
      assert legs == legs[..|legs| - 1] + [last];
      WrittenHolds(d, legs[..|legs| - 1], leg);
      var i :| 0 <= i < |legs| && legs[i] == leg;
      SheetNameInjective(leg.name, last.name);
    }
  }

  /** The channel, what it serves, and one page with the events still on their way to it. */
  datatype World = World(legs: seq<Leg>, version: nat, dist: Dist, page: Page, events: seq<Event>)

  function EventsOf(push: Option<Push>, legs: seq<Leg>, version: nat): seq<Event> {
    match push
    case None => []
    case Some(Swap) => [SwapEvent(version, SheetsOf(legs))]
    case Some(Css(sheets)) => seq(|sheets|, i requires 0 <= i < |sheets| => CssEvent(sheets[i]))
  }

  ghost function Decided(previous: seq<Leg>, next: seq<Leg>): Option<Push> {
    if BrowserMoved(previous, next) then Some(Swap)
    else if Rewritten(previous, next) != [] then Some(Css(Rewritten(previous, next)))
    else None
  }

  /** A round over legs already recorded: classified, written, pushed. */
  ghost function Round(w: World, next: seq<Leg>): World {
    var version := if BrowserMoved(w.legs, next) then w.version + 1 else w.version;
    World(next, version, Written(w.dist, next), w.page, w.events + EventsOf(Decided(w.legs, next), next, version))
  }

  /** The page handles the oldest event on its way, against what `dist/` holds by then. */
  function Deliver(w: World): World
    requires w.events != []
  {
    w.(page := Handled(w.page, w.dist, w.events[0]), events := w.events[1..])
  }

  datatype Step = Rebuild(next: seq<Leg>) | Arrive

  ghost predicate Can(w: World, step: Step) {
    match step
    case Rebuild(next) => next != [] && Unique(next) && StableKinds(w.legs, next)
    case Arrive => w.events != []
  }

  ghost function Do(w: World, step: Step): World
    requires Can(w, step)
  {
    match step
    case Rebuild(next) => Round(w, next)
    case Arrive => Deliver(w)
  }

  // ----- what every round and every arrival keep -----

  /** What the last event on its way that touches a sheet will have done to it: landed, or withdrawn. */
  function FateOf(e: Event, sheet: string, own: bool): Option<bool> {
    match e
    case SwapEvent(_, sheets) => if own || sheet in sheets then Some(sheet in sheets) else None
    case CssEvent(named) => if named == sheet then Some(true) else None
  }

  function Fate(events: seq<Event>, sheet: string, own: bool): Option<bool> {
    if events == [] then None
    else
      var rest := Fate(events[1..], sheet, own);
      if rest.Some? then rest else FateOf(events[0], sheet, own)
  }

  /** The version of the last swap on its way. */
  function LastSwap(events: seq<Event>): Option<nat> {
    if events == [] then None
    else
      var rest := LastSwap(events[1..]);
      if rest.Some? then rest else if events[0].SwapEvent? then Some(events[0].version) else None
  }

  ghost predicate DistHolds(w: World) {
    forall leg :: leg in w.legs ==>
      && leg.name in w.dist.bundles && w.dist.bundles[leg.name] == leg.bundle
      && (leg.css.Some? ==> SheetName(leg.name) in w.dist.sheets && w.dist.sheets[SheetName(leg.name)] == leg.css.value)
  }

  /** The sheet is as the round says, or the last event that touches it will make it so. */
  predicate SheetOk(w: World, leg: Leg) {
    var sheet, own := SheetName(leg.name), leg.name == w.page.leg;
    match Fate(w.events, sheet, own)
    case None =>
      (match leg.css
       case Some(text) => Shows(SheetOf(w.page, sheet), text)
       case None => own ==> Absent(SheetOf(w.page, sheet)))
    case Some(landed) => own ==> landed == leg.css.Some?
  }

  ghost predicate SheetsOk(w: World) {
    forall leg :: leg in w.legs && leg.browser && AppliesHere(w.page, SheetName(leg.name)) ==> SheetOk(w, leg)
  }

  ghost predicate BundleOk(w: World) {
    && w.page.leg in w.dist.bundles
    && match LastSwap(w.events)
       case None =>
         && w.page.version == w.version
         && (forall leg :: leg in w.legs && leg.browser && leg.name == w.page.leg ==> w.page.bundle == leg.bundle)
       case Some(version) => version == w.version
  }

  ghost predicate Inv(w: World) {
    w.legs != [] && Unique(w.legs) && DistHolds(w) && SheetsOk(w) && BundleOk(w)
  }

  /** The page runs the round's bundle under the channel's version, and shows its own sheet as the round
      emitted it or not at all, and every other leg's sheet it links as the round emitted it. */
  ghost predicate InSync(w: World) {
    && w.page.version == w.version
    && (forall leg :: leg in w.legs && leg.browser && leg.name == w.page.leg ==>
          && w.page.bundle == leg.bundle
          && (leg.css.Some? ==> Shows(SheetOf(w.page, SheetName(leg.name)), leg.css.value))
          && (leg.css.None? ==> Absent(SheetOf(w.page, SheetName(leg.name)))))
    && (forall leg :: leg in w.legs && leg.browser && SheetOf(w.page, SheetName(leg.name)).links != []
                      && leg.css.Some? ==>
          Shows(SheetOf(w.page, SheetName(leg.name)), leg.css.value))
  }

  lemma {:induction false} FateAfter(es: seq<Event>, more: seq<Event>, sheet: string, own: bool)
    ensures Fate(es + more, sheet, own)
              == if Fate(more, sheet, own).Some? then Fate(more, sheet, own) else Fate(es, sheet, own)
  {
    if es == [] {
      assert es + more == more;
    } else {
      assert (es + more)[1..] == es[1..] + more;
      FateAfter(es[1..], more, sheet, own);
    }
  }

  lemma {:induction false} LastSwapAfter(es: seq<Event>, more: seq<Event>)
    ensures LastSwap(es + more) == if LastSwap(more).Some? then LastSwap(more) else LastSwap(es)
  {
    if es == [] {
      assert es + more == more;
    } else {
      assert (es + more)[1..] == es[1..] + more;
      LastSwapAfter(es[1..], more);
    }
  }

  // ----- an arrival -----

  lemma HandledSheet(p: Page, d: Dist, e: Event, name: string)
    requires AppliesHere(p, name)
    ensures var q, own := Handled(p, d, e), name == SheetName(p.leg);
            && q.leg == p.leg && AppliesHere(q, name)
            && (FateOf(e, name, own).None? ==> SheetOf(q, name) == SheetOf(p, name))
            && (FateOf(e, name, own) == Some(true) && name in d.sheets ==> Shows(SheetOf(q, name), d.sheets[name]))
            && (FateOf(e, name, own) == Some(false) ==> Absent(SheetOf(q, name)))
  {
    match e
    case SwapEvent(_, sheets) =>
      AppliedSheets(p, d, sheets, name);
    case CssEvent(sheet) =>
      if name == sheet && name in d.sheets { AppliedShows(p, d, name); }
  }

  lemma HandledAppliesHere(p: Page, d: Dist, e: Event, name: string)
    ensures AppliesHere(Handled(p, d, e), name) <==> AppliesHere(p, name)
  {
    match e
    case SwapEvent(_, sheets) => AppliedSheets(p, d, sheets, name);
    case CssEvent(sheet) =>
  }

  lemma DeliverKeepsSheet(w: World, leg: Leg)
    requires Inv(w) && w.events != [] && leg in w.legs && leg.browser && AppliesHere(w.page, SheetName(leg.name))
    ensures SheetOk(Deliver(w), leg)
  {
    var sheet, own := SheetName(leg.name), leg.name == w.page.leg;
    SheetNameInjective(leg.name, w.page.leg);
    HandledSheet(w.page, w.dist, w.events[0], sheet);
    assert SheetOk(w, leg);
  }

  lemma DeliverKeepsInv(w: World)
    requires Inv(w) && w.events != []
    ensures Inv(Deliver(w))
  {
    var t, e := Deliver(w), w.events[0];
    forall leg | leg in t.legs && leg.browser && AppliesHere(t.page, SheetName(leg.name)) ensures SheetOk(t, leg) {
      HandledAppliesHere(w.page, w.dist, e, SheetName(leg.name));
      DeliverKeepsSheet(w, leg);
    }
    if e.SwapEvent? { AppliedSheets(w.page, w.dist, e.sheets, ""); }
  }

  // ----- a round -----

  lemma {:induction false} CssFate(sheets: seq<string>, sheet: string, own: bool)
    ensures var es := seq(|sheets|, i requires 0 <= i < |sheets| => CssEvent(sheets[i]));
            Fate(es, sheet, own) == (if sheet in sheets then Some(true) else None) && LastSwap(es).None?
  {
    if sheets != [] {
      var es := seq(|sheets|, i requires 0 <= i < |sheets| => CssEvent(sheets[i]));
      var rest := sheets[1..];
      CssFate(rest, sheet, own);
      assert es[1..] == seq(|rest|, i requires 0 <= i < |rest| => CssEvent(rest[i]));
      assert sheets == [sheets[0]] + rest;
    }
  }

  lemma SwapRoundSheet(w: World, next: seq<Leg>, leg: Leg)
    requires Unique(next) && BrowserMoved(w.legs, next) && leg in next && leg.browser
    requires AppliesHere(w.page, SheetName(leg.name))
    ensures SheetOk(Round(w, next), leg)
  {
    var sheet, own, t := SheetName(leg.name), leg.name == w.page.leg, Round(w, next);
    var e := SwapEvent(t.version, SheetsOf(next));
    SheetsOfNames(next, sheet);
    if other :| other in next && other.browser && other.css.Some? && sheet == SheetName(other.name) {
      SheetNameInjective(leg.name, other.name);
      FindUnique(next, leg);
      FindUnique(next, other);
    }
    FateAfter(w.events, [e], sheet, own);
    assert Fate([e], sheet, own) == FateOf(e, sheet, own);
  }

  /** Where the browser's outputs did not move, each browser leg was there, the same but for its sheet's text. */
  lemma Unmoved(w: World, next: seq<Leg>, leg: Leg) returns (was: Leg)
    requires StableKinds(w.legs, next) && !BrowserMoved(w.legs, next) && leg in next && leg.browser
    ensures was in w.legs && was.browser && was.name == leg.name && was.bundle == leg.bundle
    ensures was.css.Some? == leg.css.Some?
    ensures was.css != leg.css ==> SheetName(leg.name) in Rewritten(w.legs, next)
  {
    assert !BrowserLegMoves(w.legs, leg);
    was := Find(w.legs, leg.name).value;
    RewrittenNames(w.legs, next, SheetName(leg.name));
  }

  lemma CssRoundSheet(w: World, next: seq<Leg>, leg: Leg)
    requires Inv(w) && Unique(next) && StableKinds(w.legs, next) && !BrowserMoved(w.legs, next)
    requires leg in next && leg.browser && AppliesHere(w.page, SheetName(leg.name))
    ensures SheetOk(Round(w, next), leg)
  {
    var sheet, own, t := SheetName(leg.name), leg.name == w.page.leg, Round(w, next);
    var was := Unmoved(w, next, leg);
    assert SheetOk(w, was);
    var rewritten := Rewritten(w.legs, next);
    var es := seq(|rewritten|, i requires 0 <= i < |rewritten| => CssEvent(rewritten[i]));
    CssFate(rewritten, sheet, own);
    FateAfter(w.events, es, sheet, own);
    assert t.events == w.events + es;
    if sheet in rewritten {
      RewrittenNames(w.legs, next, sheet);
      var other :| other in next && SheetRewritten(w.legs, other) && sheet == SheetName(other.name);
      SheetNameInjective(leg.name, other.name);
      FindUnique(next, leg);
      FindUnique(next, other);
    }
  }

  lemma RoundKeepsBundle(w: World, next: seq<Leg>)
    requires Inv(w) && Can(w, Rebuild(next))
    ensures w.page.leg in Written(w.dist, next).bundles ==> BundleOk(Round(w, next))
  {
    var t := Round(w, next);
    if BrowserMoved(w.legs, next) {
      LastSwapAfter(w.events, [SwapEvent(t.version, SheetsOf(next))]);
    } else {
      var rewritten := Rewritten(w.legs, next);
      var es := seq(|rewritten|, i requires 0 <= i < |rewritten| => CssEvent(rewritten[i]));
      CssFate(rewritten, "", false);
      LastSwapAfter(w.events, es);
      assert t.events == w.events + es;
      forall leg | leg in next && leg.browser && leg.name == w.page.leg && LastSwap(t.events).None?
        ensures w.page.bundle == leg.bundle
      {
        var was := Unmoved(w, next, leg);
      }
    }
  }

  lemma {:induction false} WrittenKeeps(d: Dist, legs: seq<Leg>, name: string)
    requires name in d.bundles
    ensures name in Written(d, legs).bundles
  {
    if legs != [] { WrittenKeeps(d, legs[..|legs| - 1], name); }
  }

  lemma RoundKeepsInv(w: World, next: seq<Leg>)
    requires Inv(w) && Can(w, Rebuild(next))
    ensures Inv(Round(w, next))
  {
    var t := Round(w, next);
    forall leg | leg in next
      ensures leg.name in t.dist.bundles && t.dist.bundles[leg.name] == leg.bundle
      ensures leg.css.Some? ==>
                SheetName(leg.name) in t.dist.sheets && t.dist.sheets[SheetName(leg.name)] == leg.css.value
    {
      WrittenHolds(w.dist, next, leg);
    }
    forall leg | leg in next && leg.browser && AppliesHere(t.page, SheetName(leg.name)) ensures SheetOk(t, leg) {
      if BrowserMoved(w.legs, next) { SwapRoundSheet(w, next, leg); } else { CssRoundSheet(w, next, leg); }
    }
    WrittenKeeps(w.dist, next, w.page.leg);
    RoundKeepsBundle(w, next);
  }

  // ----- whole runs -----

  ghost predicate CanAll(w: World, steps: seq<Step>)
    decreases |steps|
  {
    steps == [] || (Can(w, steps[0]) && CanAll(Do(w, steps[0]), steps[1..]))
  }

  ghost function DoAll(w: World, steps: seq<Step>): World
    requires CanAll(w, steps)
    decreases |steps|
  {
    if steps == [] then w else DoAll(Do(w, steps[0]), steps[1..])
  }

  lemma {:induction false} RunKeepsInv(w: World, steps: seq<Step>)
    requires Inv(w) && CanAll(w, steps)
    ensures Inv(DoAll(w, steps))
    decreases |steps|
  {
    if steps != [] {
      match steps[0] {
        case Rebuild(next) => RoundKeepsInv(w, next);
        case Arrive => DeliverKeepsInv(w);
      }
      RunKeepsInv(Do(w, steps[0]), steps[1..]);
    }
  }

  /** A page in sync with its round that then handles every event pushed, each whenever it arrives and
      against whatever `dist/` holds by then, is in sync whenever none is on its way. */
  lemma PageConverges(w: World, steps: seq<Step>)
    requires w.legs != [] && Unique(w.legs) && DistHolds(w) && w.page.leg in w.dist.bundles
    requires w.events == [] && InSync(w) && CanAll(w, steps)
    ensures var t := DoAll(w, steps); t.events == [] ==> InSync(t)
  {
    forall leg | leg in w.legs && leg.browser && AppliesHere(w.page, SheetName(leg.name)) ensures SheetOk(w, leg) {
      SheetNameInjective(leg.name, w.page.leg);
    }
    RunKeepsInv(w, steps);
    var t := DoAll(w, steps);
    if t.events == [] { QuietIsInSync(t); }
  }

  lemma QuietIsInSync(w: World)
    requires Inv(w) && w.events == []
    ensures InSync(w)
  {
    forall leg | leg in w.legs && leg.browser && AppliesHere(w.page, SheetName(leg.name)) ensures SheetOk(w, leg) {
    }
  }

  // ----- versions -----

  /** The browser legs and their bundles. */
  ghost function BrowserBundles(legs: seq<Leg>): set<(string, string)> {
    set leg | leg in legs && leg.browser :: (leg.name, leg.bundle)
  }

  lemma UnmovedBundles(w: World, next: seq<Leg>)
    requires Unique(w.legs) && Can(w, Rebuild(next)) && !BrowserMoved(w.legs, next)
    ensures BrowserBundles(next) == BrowserBundles(w.legs)
  {
    forall b | b in BrowserBundles(next) ensures b in BrowserBundles(w.legs) {
      var leg :| leg in next && leg.browser && b == (leg.name, leg.bundle);
      var was := Unmoved(w, next, leg);
    }
    forall b | b in BrowserBundles(w.legs) ensures b in BrowserBundles(next) {
      var was :| was in w.legs && was.browser && b == (was.name, was.bundle);
      assert !Vanished(next, was);
      var leg := Find(next, was.name).value;
      assert !BrowserLegMoves(w.legs, leg);
      FindUnique(w.legs, was);
    }
  }

  /** The channel's version never falls, and where it is the same the browser bundles are. */
  lemma {:induction false} EqualVersionsEqualBundles(w: World, steps: seq<Step>)
    requires Inv(w) && CanAll(w, steps)
    ensures var t := DoAll(w, steps);
            && w.version <= t.version
            && (t.version == w.version ==> BrowserBundles(t.legs) == BrowserBundles(w.legs))
    decreases |steps|
  {
    if steps != [] {
      match steps[0] {
        case Rebuild(next) =>
          RoundKeepsInv(w, next);
          if !BrowserMoved(w.legs, next) { UnmovedBundles(w, next); }
        case Arrive => DeliverKeepsInv(w);
      }
      EqualVersionsEqualBundles(Do(w, steps[0]), steps[1..]);
    }
  }

  // ----- what a round's decision says of the legs -----

  /** A browser leg's outputs: its bundle, and whether it has a stylesheet. */
  ghost function BrowserOutputs(legs: seq<Leg>): set<(string, string, bool)> {
    set leg | leg in legs && leg.browser :: (leg.name, leg.bundle, leg.css.Some?)
  }

  ghost predicate SameOutputs(a: Leg, b: Leg) {
    (a.name, a.bundle, a.css.Some?) == (b.name, b.bundle, b.css.Some?)
  }

  lemma MovedOutputs(previous: seq<Leg>, next: seq<Leg>)
    requires Unique(previous) && Unique(next) && StableKinds(previous, next) && BrowserMoved(previous, next)
    ensures BrowserOutputs(previous) != BrowserOutputs(next)
  {
    if BrowserLegMoved(previous, next) {
      var leg :| leg in next && BrowserLegMoves(previous, leg);
      forall was | was in previous && was.browser ensures !SameOutputs(was, leg) {
        FindUnique(previous, was);
      }
      assert (leg.name, leg.bundle, leg.css.Some?) in BrowserOutputs(next);
    } else {
      var was :| was in previous && was.browser && Vanished(next, was);
      assert (was.name, was.bundle, was.css.Some?) in BrowserOutputs(previous);
      assert (was.name, was.bundle, was.css.Some?) !in BrowserOutputs(next);
    }
  }

  lemma StillOutputs(previous: seq<Leg>, next: seq<Leg>)
    requires Unique(previous) && Unique(next) && StableKinds(previous, next) && !BrowserMoved(previous, next)
    ensures BrowserOutputs(previous) == BrowserOutputs(next)
  {
    forall leg | leg in next && leg.browser ensures (leg.name, leg.bundle, leg.css.Some?) in BrowserOutputs(previous) {
      assert !BrowserLegMoves(previous, leg);
      var was := Find(previous, leg.name).value;
      assert was in previous && was.browser && SameOutputs(was, leg);
    }
    forall was | was in previous && was.browser ensures (was.name, was.bundle, was.css.Some?) in BrowserOutputs(next) {
      assert !Vanished(next, was);
      var leg := Find(next, was.name).value;
      FindUnique(previous, was);
      assert leg in next && leg.browser && !BrowserLegMoves(previous, leg);
    }
  }

  /** Past the first, a round swaps, and bumps the version, exactly when the browser legs' outputs are others
      than they were. */
  lemma SwapsIff(previous: seq<Leg>, next: seq<Leg>)
    requires Unique(previous) && Unique(next) && StableKinds(previous, next)
    ensures BrowserMoved(previous, next) <==> BrowserOutputs(previous) != BrowserOutputs(next)
  {
    if BrowserMoved(previous, next) { MovedOutputs(previous, next); } else { StillOutputs(previous, next); }
  }

  /** The browser leg had a stylesheet and has one, and the text is another. */
  ghost predicate TextChanged(previous: seq<Leg>, next: seq<Leg>, name: string) {
    exists was, leg :: was in previous && leg in next && was.name == name == leg.name && leg.browser
                       && was.css.Some? && leg.css.Some? && was.css.value != leg.css.value
  }

  /** A css push names a sheet exactly when it is the sheet of a browser leg whose text changed. */
  lemma RewrittenIff(previous: seq<Leg>, next: seq<Leg>, name: string)
    requires Unique(previous) && Unique(next)
    ensures name + ".css" in Rewritten(previous, next) <==> TextChanged(previous, next, name)
  {
    RewrittenNames(previous, next, name + ".css");
    if name + ".css" in Rewritten(previous, next) {
      var leg :| leg in next && SheetRewritten(previous, leg) && name + ".css" == SheetName(leg.name);
      SheetNameInjective(name, leg.name);
      var was := Find(previous, leg.name).value;
      assert was in previous && was.name == name == leg.name;
    }
    if TextChanged(previous, next, name) {
      var was, leg :| was in previous && leg in next && was.name == name == leg.name && leg.browser
                      && was.css.Some? && leg.css.Some? && was.css.value != leg.css.value;
      FindUnique(previous, was);
      assert SheetRewritten(previous, leg);
    }
  }
}
