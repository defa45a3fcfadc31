/**
 * The active-link rules of `initNavigation` in script.js: on scroll the
 * current section is the last one, in document order, whose top the page has
 * scrolled to within 200 pixels, and exactly the links naming it are active;
 * a click on a link whose target exists makes that link the only active one.
 */
module Navigation {
  /** A `[data-section]` element: its `data-section` value and its `offsetTop`. */
  datatype Section = Section(name: string, offsetTop: int)

  /** A link of `.nav-links`: its `href` and whether it carries the `active` class. */
  class NavLink {
    const href: string
    var active: bool

    constructor (href: string, active: bool)
      ensures this.href == href && this.active == active
    {
      this.href := href;
      this.active := active;
    }
  }

  /** `href.substring(1)`: the `href` without its first character (`#`). */
  function HrefTarget(href: string): (r: string)
    ensures href == [] ==> r == []
    ensures href != [] ==> [href[0]] + r == href
  {
    if href == [] then [] else href[1..]
  }

  /** The scroll test: the page offset `y` is at most 200 pixels above the section's top. */
  predicate Reached(section: Section, y: int) {
    y >= section.offsetTop - 200
  }

  /** The current section for offset `y`: the last one reached, or `""` when none is. */
  function ActiveSectionOf(sections: seq<Section>, y: int): (r: string)
    ensures r != "" ==> exists i :: 0 <= i < |sections| && Reached(sections[i], y) && sections[i].name == r
  {
    if sections == [] then ""
    else if Reached(sections[|sections| - 1], y) then sections[|sections| - 1].name
    else
      var init := sections[..|sections| - 1];
      assert forall i :: 0 <= i < |init| ==> init[i] == sections[i];
      ActiveSectionOf(init, y)
  }

  /**
   * What `ActiveSectionOf` means: the name of a reached section after which
   * no section is reached, and `""` when no section is reached at all.
   */
  lemma {:induction false} ActiveSectionIsLastReached(sections: seq<Section>, y: int)
    ensures (forall i :: 0 <= i < |sections| ==> !Reached(sections[i], y)) ==> ActiveSectionOf(sections, y) == ""
    ensures forall i :: 0 <= i < |sections| && Reached(sections[i], y)
                        && (forall j :: i < j < |sections| ==> !Reached(sections[j], y))
                        ==> ActiveSectionOf(sections, y) == sections[i].name
  {
    if sections != [] {
      var init := sections[..|sections| - 1];
      ActiveSectionIsLastReached(init, y);
      assert forall i :: 0 <= i < |init| ==> init[i] == sections[i];
    }
  }

  /**
   * The loop of the scroll handler that computes `current`: every section is
   * visited in order and the last one reached wins.
   */
  method CurrentSection(sections: seq<Section>, y: int) returns (current: string)
    ensures current == ActiveSectionOf(sections, y)
  {
    current := "";
    var i := 0;
    while i < |sections|
      invariant 0 <= i <= |sections|
      invariant current == ActiveSectionOf(sections[..i], y)
    {
      if y >= sections[i].offsetTop - 200 {
        current := sections[i].name;
      }
      assert sections[..i + 1][..i] == sections[..i];
      i := i + 1;
    }
    assert sections[..|sections|] == sections;
  }

  /**
   * The scroll handler: afterwards the active links are exactly those whose
   * target is the current section.
   */
  method OnScroll(sections: seq<Section>, links: seq<NavLink>, y: int)
    modifies set l | l in links
    ensures forall l :: l in links ==> l.active == (HrefTarget(l.href) == ActiveSectionOf(sections, y))
  {
    var current := CurrentSection(sections, y);
    var i := 0;
    while i < |links|
      invariant 0 <= i <= |links|
      invariant forall k :: 0 <= k < i ==> links[k].active == (HrefTarget(links[k].href) == current)
    {
      links[i].active := false;
      if HrefTarget(links[i].href) == current {
        links[i].active := true;
      }
      i := i + 1;
    }
  }

  /**
   * The click handler of `link`: when `getElementById` finds its target
   * among `ids` (an empty identifier finds nothing), `link` becomes the only
   * active link; otherwise nothing changes. Scrolling is the browser's.
   */
  method OnLinkClick(link: NavLink, links: seq<NavLink>, ids: set<string>)
    requires link in links
    modifies set l | l in links
    ensures HrefTarget(link.href) != "" && HrefTarget(link.href) in ids ==>
      forall l :: l in links ==> l.active == (l == link)
    ensures !(HrefTarget(link.href) != "" && HrefTarget(link.href) in ids) ==>
      forall l :: l in links ==> l.active == old(l.active)
  {
    var target := HrefTarget(link.href);
    if target != "" && target in ids {
      var i := 0;
      while i < |links|
        invariant 0 <= i <= |links|
        invariant forall k :: 0 <= k < i ==> !links[k].active
      {
        links[i].active := false;
        i := i + 1;
      }
      link.active := true;
    }
  }
}
