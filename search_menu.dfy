/**
 * The per-feature "Use variable" menu (src/components/SearchableMenuButton.tsx): a
 * case-insensitive substring filter over the host's variable names and the menu's
 * open/anchor/search state.
 */
module SearchMenu {
  import opened Wrappers
  import opened Text
  import opened Seqs
  import opened Types

  /** `option.toLowerCase().includes(searchText.toLowerCase())`. */
  predicate Matches(option: string, searchText: string)
    ensures searchText == "" ==> Matches(option, searchText)
  {
    assert Lower("") == "";
    IncludesEmpty(Lower(option));
    Includes(Lower(option), Lower(searchText))
  }

  /** `filteredOptions`: the matching options, in order, each as often as in `options`. */
  function Filter(options: seq<string>, searchText: string): (r: seq<string>)
    ensures IsSubsequence(r, options)
    ensures forall x :: multiset(r)[x] == if Matches(x, searchText) then multiset(options)[x] else 0
    ensures forall x :: x in r <==> x in options && Matches(x, searchText)
  {
    if options == [] then []
    else
      var rest := Filter(options[1..], searchText);
      assert options == [options[0]] + options[1..];
      if Matches(options[0], searchText) then
        var r := [options[0]] + rest;
        assert r[1..] == rest;
        r
      else
        DropHead(rest, options);
        rest
  }

  /** With an empty search text, the initial and post-close value, every option is shown. */
  lemma {:induction false} FilterEmptySearch(options: seq<string>)
    ensures Filter(options, "") == options
  {
    if options != [] {
      FilterEmptySearch(options[1..]);
      assert options == [options[0]] + options[1..];
    }
  }

  /** The position of the first matching option, or `|options|` when none matches. */
  function FirstMatch(options: seq<string>, searchText: string): (k: nat)
    ensures k <= |options|
    ensures forall j :: 0 <= j < k ==> !Matches(options[j], searchText)
    ensures k < |options| ==> Matches(options[k], searchText)
  {
    if options == [] then 0
    else if Matches(options[0], searchText) then 0
    else
      var k := FirstMatch(options[1..], searchText);
      assert forall j :: 1 <= j < k + 1 ==> options[j] == options[1..][j - 1];
      1 + k
  }

  /** The head of the filtered list is the first matching option. */
  lemma {:induction false} FilterHead(options: seq<string>, searchText: string)
    ensures Filter(options, searchText) != [] <==> FirstMatch(options, searchText) < |options|
    ensures FirstMatch(options, searchText) < |options| ==>
              Filter(options, searchText)[0] == options[FirstMatch(options, searchText)]
  {
    if options != [] && !Matches(options[0], searchText) {
      FilterHead(options[1..], searchText);
    }
  }

  /**
   * What Enter passes on as written: `filteredOptions[0]`, which is `undefined` when no
   * option matches.
   */
  function EnterReportAsWritten(options: seq<string>, searchText: string): (r: JsString)
    ensures r != Null
    ensures r.Str? <==> exists k :: 0 <= k < |options| && Matches(options[k], searchText)
    ensures r.Str? ==> r.value in options && Matches(r.value, searchText)
    ensures r.Str? ==> FirstMatch(options, searchText) < |options| && r.value == options[FirstMatch(options, searchText)]
  {
    FilterHead(options, searchText);
    var k := FirstMatch(options, searchText);
    assert k == |options| ==> forall j :: 0 <= j < |options| ==> !Matches(options[j], searchText);
    First(Filter(options, searchText))
  }

  /** A search that matches nothing makes Enter report `undefined`. */
  lemma EnterWithNoMatchReportsUndefined()
    ensures EnterReportAsWritten(["a"], "z") == Undefined
  {
    assert Lower("a") == "a" && Lower("z") == "z";
    assert "a"[0..1] == "a";
    assert !OccursAt("a", "z", 0);
    assert !Matches("a", "z");
  }

  /** Enter reports the first matching option, and nothing when no option matches. */
  function EnterReport(options: seq<string>, searchText: string): (r: Option<string>)
    ensures r.Some? <==> exists k :: 0 <= k < |options| && Matches(options[k], searchText)
    ensures r.Some? ==>
              exists k :: 0 <= k < |options| && options[k] == r.value && Matches(options[k], searchText)
                       && forall j :: 0 <= j < k ==> !Matches(options[j], searchText)
  {
    FilterHead(options, searchText);
    var k := FirstMatch(options, searchText);
    assert k == |options| ==> forall j :: 0 <= j < |options| ==> !Matches(options[j], searchText);
    var filtered := Filter(options, searchText);
    if filtered == [] then None else Some(filtered[0])
  }

  /** The element the menu is anchored to. */
  datatype Anchor = Anchor(id: nat)

  /** A call of `handleFeatureChange(expression, index)`. */
  datatype Report = Report(expression: string, index: int)

  class MenuButton {
    const options: seq<string>
    /** The position of the feature this button edits. */
    const index: int
    var open: bool
    var anchorEl: Option<Anchor>
    var searchText: string

    constructor (options: seq<string>, index: int)
      ensures this.options == options && this.index == index
      ensures !open && anchorEl == None && searchText == ""
    {
      this.options := options;
      this.index := index;
      open, anchorEl, searchText := false, None, "";
    }

    /** The options the open menu lists. */
    function FilteredOptions(): seq<string>
      reads this
    {
      Filter(options, searchText)
    }

    method HandleClick(target: Anchor)
      modifies this`open, this`anchorEl
      ensures open && anchorEl == Some(target) && searchText == old(searchText)
    {
      anchorEl := Some(target);
      open := true;
    }

    /** Closing also forgets the search, so the next opening lists every option. */
    method HandleClose()
      modifies this`open, this`anchorEl, this`searchText
      ensures !open && anchorEl == None && searchText == ""
      ensures FilteredOptions() == options
    {
      open := false;
      anchorEl := None;
      searchText := "";
      FilterEmptySearch(options);
    }

    method HandleSearchChange(value: string)
      modifies this`searchText
      ensures searchText == value
    {
      searchText := value;
    }

    /** Picking an item reports exactly that option for this button's feature, then closes. */
    method HandleMenuSelect(option: string) returns (report: Report)
      modifies this`open, this`anchorEl, this`searchText
      ensures report == Report(option, index)
      ensures !open && anchorEl == None && searchText == ""
    {
      report := Report(option, index);
      HandleClose();
    }

    /**
     * Enter reports the first listed option, if any, and closes; any other key changes
     * nothing.
     */
    method HandleEnter(key: string) returns (report: Option<Report>)
      modifies this`open, this`anchorEl, this`searchText
      ensures key != "Enter" ==>
                report == None && open == old(open) && anchorEl == old(anchorEl) && searchText == old(searchText)
      ensures key == "Enter" ==>
                && report == (var e := EnterReport(options, old(searchText));
                              if e.Some? then Some(Report(e.value, index)) else None)
                && !open && anchorEl == None && searchText == ""
      ensures key == "Enter" && EnterReportAsWritten(options, old(searchText)).Str? ==>
                report == Some(Report(EnterReportAsWritten(options, old(searchText)).value, index))
    {
      report := None;
      if key == "Enter" {
        var e := EnterReport(options, searchText);
        if e.Some? {
          report := Some(Report(e.value, index));
        }
        HandleClose();
      }
    }
  }
}
