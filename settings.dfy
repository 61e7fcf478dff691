/** The resolution list of the settings menu
    (Assets/Scripts/Menus/Settings.cs, `SetupResolutionDropdown` and
    `Resolution.Equals`): the screen's modes are reduced to distinct
    width-by-height pairs in first-occurrence order, each with a dropdown
    label cut from the mode's text at the first '@' (the refresh rate). The
    mode's text is given as it is; its formatting is the engine's. */
module SettingsMenu {

  datatype Resolution = Resolution(width: int, height: int)

  /** A display mode as reported by the screen. */
  datatype ScreenResolution = ScreenResolution(width: int, height: int, text: string)

  /** `Resolution.Equals`: component-wise. */
  predicate SameResolution(a: Resolution, b: Resolution) {
    a.width == b.width && a.height == b.height
  }

  lemma SameResolutionIsEquality(a: Resolution, b: Resolution)
    ensures SameResolution(a, b) <==> a == b
  {
  }

  function ResolutionOf(s: ScreenResolution): Resolution {
    Resolution(s.width, s.height)
  }

  /** `Split('@')[0]`: the text before the first '@', or all of it. */
  function BeforeAt(text: string): (r: string)
    ensures |r| <= |text| && r == text[..|r|]
    ensures '@' !in r
    ensures |r| < |text| ==> text[|r|] == '@'
  {
    if text == [] || text[0] == '@' then [] else [text[0]] + BeforeAt(text[1..])
  }

  predicate ContainsResolution(list: seq<Resolution>, r: Resolution) {
    exists k :: 0 <= k < |list| && SameResolution(list[k], r)
  }

  predicate Distinct(list: seq<Resolution>) {
    forall i, j :: 0 <= i < j < |list| ==> !SameResolution(list[i], list[j])
  }

  /** The lists after taking in each mode of `screen` in turn. */
  function Setup(resolutions: seq<Resolution>, options: seq<string>, screen: seq<ScreenResolution>)
    : (seq<Resolution>, seq<string>)
  {
    if screen == [] then (resolutions, options)
    else
      var (rs, os) := Setup(resolutions, options, screen[..|screen| - 1]);
      var last := screen[|screen| - 1];
      if ContainsResolution(rs, ResolutionOf(last)) then (rs, os)
      else (rs + [ResolutionOf(last)], os + [BeforeAt(last.text)])
  }

  /** Index of the first mode with the given resolution, `|screen|` if none. */
  function FirstIndex(screen: seq<ScreenResolution>, r: Resolution): (k: nat)
    ensures k <= |screen|
  {
    if screen == [] then 0
    else
      var k := FirstIndex(screen[..|screen| - 1], r);
      if k < |screen| - 1 then k
      else if ResolutionOf(screen[|screen| - 1]) == r then |screen| - 1
      else |screen|
  }

  /** The lists only grow at the end, in lockstep: each new resolution sits
      at the same index as the label cut from the same mode. */
  lemma {:induction false} SetupLockstep(resolutions: seq<Resolution>, options: seq<string>,
                                         screen: seq<ScreenResolution>)
    requires |resolutions| == |options|
    ensures var (rs, os) := Setup(resolutions, options, screen);
      && |rs| == |os| && |resolutions| <= |rs|
      && rs[..|resolutions|] == resolutions && os[..|options|] == options
      && forall j :: |resolutions| <= j < |rs| ==>
           exists k :: 0 <= k < |screen| && rs[j] == ResolutionOf(screen[k]) && os[j] == BeforeAt(screen[k].text)
  {
    if screen != [] {
      var init := screen[..|screen| - 1];
      SetupLockstep(resolutions, options, init);
      var (rs, os) := Setup(resolutions, options, init);
      forall j | |resolutions| <= j < |rs|
        ensures exists k :: 0 <= k < |screen| && rs[j] == ResolutionOf(screen[k]) && os[j] == BeforeAt(screen[k].text)
      {
        var k :| 0 <= k < |init| && rs[j] == ResolutionOf(init[k]) && os[j] == BeforeAt(init[k].text);
        assert init[k] == screen[k];
      }
      var (rs', os') := Setup(resolutions, options, screen);
      if rs' != rs {
        assert rs'[..|resolutions|] == rs[..|resolutions|];
        assert os'[..|options|] == os[..|options|];
      }
    }
  }

  /** No resolution is listed twice, given none was before. */
  lemma {:induction false} SetupDistinct(resolutions: seq<Resolution>, options: seq<string>,
                                         screen: seq<ScreenResolution>)
    requires Distinct(resolutions)
    ensures Distinct(Setup(resolutions, options, screen).0)
  {
    if screen != [] {
      SetupDistinct(resolutions, options, screen[..|screen| - 1]);
    }
  }

  /** Every mode of the screen has its resolution listed. */
  lemma {:induction false} SetupCovers(resolutions: seq<Resolution>, options: seq<string>,
                                       screen: seq<ScreenResolution>)
    ensures forall k :: 0 <= k < |screen| ==>
      ContainsResolution(Setup(resolutions, options, screen).0, ResolutionOf(screen[k]))
  {
    if screen != [] {
      var init := screen[..|screen| - 1];
      SetupCovers(resolutions, options, init);
      var rs := Setup(resolutions, options, init).0;
      var rs' := Setup(resolutions, options, screen).0;
      assert rs'[..|rs|] == rs;
      forall k | 0 <= k < |screen|
        ensures ContainsResolution(rs', ResolutionOf(screen[k]))
      {
        if k < |init| {
          assert init[k] == screen[k];
          var m :| 0 <= m < |rs| && SameResolution(rs[m], ResolutionOf(init[k]));
          assert rs'[m] == rs[m];
        } else if !ContainsResolution(rs, ResolutionOf(screen[k])) {
          assert SameResolution(rs'[|rs|], ResolutionOf(screen[k]));
        }
      }
    }
  }

  /** Starting empty, the resolutions are listed in the order of their first
      appearance on the screen. */
  predicate InFirstOccurrenceOrder(screen: seq<ScreenResolution>, rs: seq<Resolution>) {
    && (forall j :: 0 <= j < |rs| ==> FirstIndex(screen, rs[j]) < |screen|)
    && (forall i, j :: 0 <= i < j < |rs| ==> FirstIndex(screen, rs[i]) < FirstIndex(screen, rs[j]))
  }

  lemma {:induction false} SetupFirstOccurrenceOrder(screen: seq<ScreenResolution>)
    ensures InFirstOccurrenceOrder(screen, Setup([], [], screen).0)
  {
    if screen != [] {
      var init := screen[..|screen| - 1];
      var n := |screen| - 1;
      SetupFirstOccurrenceOrder(init);
      var rs := Setup([], [], init).0;
      var rs' := Setup([], [], screen).0;
      forall j | 0 <= j < |rs|
        ensures FirstIndex(screen, rs[j]) == FirstIndex(init, rs[j]) < n
      {
        assert FirstIndex(init, rs[j]) < |init|;
      }
      if rs' != rs {
        var r := ResolutionOf(screen[n]);
        assert rs' == rs + [r];
        assert !ContainsResolution(rs, r);
        if FirstIndex(init, r) < n {
          FirstIndexFound(init, r);
          SetupCovers([], [], init);
          assert false;
        }
        assert FirstIndex(screen, r) == n;
      }
    }
  }

  lemma {:induction false} FirstIndexFound(screen: seq<ScreenResolution>, r: Resolution)
    requires FirstIndex(screen, r) < |screen|
    ensures ResolutionOf(screen[FirstIndex(screen, r)]) == r
  {
    var init := screen[..|screen| - 1];
    if FirstIndex(init, r) < |init| {
      FirstIndexFound(init, r);
      assert init[FirstIndex(init, r)] == screen[FirstIndex(init, r)];
    }
  }

  class Settings {
    var resolutions: seq<Resolution>
    var dropdownOptions: seq<string>

    constructor ()
      ensures resolutions == [] && dropdownOptions == []
    {
      resolutions, dropdownOptions := [], [];
    }

    /** `SetupResolutionDropdown`: each mode whose resolution is not listed
        yet is appended to both lists. */
    method SetupResolutionDropdown(screen: seq<ScreenResolution>)
      modifies this
      ensures (resolutions, dropdownOptions) == Setup(old(resolutions), old(dropdownOptions), screen)
    {
      var i := 0;
      while i < |screen|
        invariant 0 <= i <= |screen|
        invariant (resolutions, dropdownOptions) == Setup(old(resolutions), old(dropdownOptions), screen[..i])
      {
        assert screen[..i + 1][..i] == screen[..i];
        var res := ResolutionOf(screen[i]);
        var contains := Contains(resolutions, res);
        if !contains {
          resolutions := resolutions + [res];
          dropdownOptions := dropdownOptions + [BeforeAt(screen[i].text)];
        }
        i := i + 1;
      }
      assert screen[..i] == screen;
    }
  }

  /** `List.Contains` under `Resolution.Equals`. */
  method Contains(list: seq<Resolution>, r: Resolution) returns (found: bool)
    ensures found <==> ContainsResolution(list, r)
  {
    var i := 0;
    while i < |list|
      invariant 0 <= i <= |list|
      invariant forall k :: 0 <= k < i ==> !SameResolution(list[k], r)
    {
      if SameResolution(list[i], r) {
        return true;
      }
      i := i + 1;
    }
    return false;
  }
}
