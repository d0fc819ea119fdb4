/** The page's stylesheets and bundle as the shim changes them in place (crates/vilan-cli/src/hmr_shim.js);
    a fetch answers with what the channel serves, and one that finds nothing changes nothing. */
module DevPage {
  import opened Basics
  import opened DevLoop

  class Document {
    const leg: string
    var bundle: string
    var version: nat
    var sheets: map<string, Sheet> // each sheet name's <link>s and the <style> that supersedes them

    ghost function State(): Page
      reads this
    {
      Page(leg, bundle, version, sheets)
    }

    function SheetNamed(name: string): Sheet
      reads this
    {
      if name in sheets then sheets[name] else Sheet([], None)
    }

    method DisableLinks(name: string) returns (disabled: seq<Link>)
      ensures disabled == Disabled(SheetNamed(name).links)
    {
      disabled := SheetNamed(name).links;
      for i := 0 to |disabled|
        invariant |disabled| == |SheetNamed(name).links|
        invariant forall j :: 0 <= j < |disabled| ==>
                    disabled[j] == if j < i then SheetNamed(name).links[j].(disabled := true)
                                   else SheetNamed(name).links[j]
      {
        disabled := disabled[i := disabled[i].(disabled := true)];
      }
    }

    /** The <link>s that name the sheet are disabled and superseded by a <style> with the fresh text. */
    method ApplyFreshCss(name: string, text: string) returns (applied: bool)
      modifies this`sheets
      ensures applied <==> AppliesHere(old(State()), name)
      ensures sheets == if applied then old(sheets)[name := Sheet(Disabled(old(SheetNamed(name)).links), Some(text))]
                        else old(sheets)
    {
      if SheetNamed(name).links == [] && name != SheetName(leg) {
        return false;
      }
      var disabled := DisableLinks(name);
      sheets := sheets[name := Sheet(disabled, Some(text))];
      return true;
    }

    method WithdrawOwnSheet()
      modifies this`sheets
      ensures State() == OwnSheetWithdrawn(old(State()))
    {
      var disabled := DisableLinks(SheetName(leg));
      sheets := sheets[SheetName(leg) := Sheet(disabled, None)];
    }

    method FetchAndApplyCss(served: Dist, name: string)
      modifies this`sheets
      ensures State() == FetchedAndApplied(old(State()), served, name)
    {
      if name in served.sheets {
        var _ := ApplyFreshCss(name, served.sheets[name]);
      }
    }

    /** The round's complete sheet set against the document. */
    method ReconcileSheets(served: Dist, names: seq<string>)
      modifies this`sheets
      ensures State() == Reconciled(old(State()), served, names)
    {
      ghost var before := State();
      for index := 0 to |names|
        invariant State() == AllApplied(before, served, names[..index])
      {
        assert names[..index + 1][..index] == names[..index];
        FetchAndApplyCss(served, names[index]);
      }
      assert names[..|names|] == names;
      if SheetName(leg) !in names {
        WithdrawOwnSheet();
      }
    }

    method HandleEvent(served: Dist, e: Event)
      modifies this
      ensures State() == Handled(old(State()), served, e)
    {
      match e {
        case SwapEvent(next, names) =>
          ReconcileSheets(served, names);
          if leg in served.bundles {
            bundle, version := served.bundles[leg], next;
          }
        case CssEvent(sheet) =>
          FetchAndApplyCss(served, sheet);
      }
    }
  }
}
