/** The application sidebar (client/src/components/app-sidebar.tsx): which
    item is highlighted for the current location and the links' test ids. */
module AppSidebar {
  import opened Js

  datatype NavLink = NavLink(title: string, url: string)

  /** `navItems` (lines 26-30). */
  const NavLinks: seq<NavLink> := [
    NavLink("Dashboard", "/"),
    NavLink("Projects", "/projects"),
    NavLink("Changes", "/changes")
  ]

  /** `toolItems` (lines 32-39). */
  const ToolLinks: seq<NavLink> := [
    NavLink("Agent Skills", "/skills"),
    NavLink("Runner", "/runner"),
    NavLink("Form Studio", "/studio/forms"),
    NavLink("Admin", "/admin"),
    NavLink("Workflow Monitor", "/workflow-monitor"),
    NavLink("Records", "/records")
  ]

  /** `isActive` (lines 44-47): the root only on an exact match, every other
      item on a prefix match. */
  predicate IsActive(location: string, url: string) {
    if url == "/" then location == "/" else StartsWith(location, url)
  }

  /** The Dashboard item is active on `/` only, although every path starts
      with `/`; `/changes/123` activates Changes. */
  lemma RootOnlyOnRoot(location: string)
    ensures IsActive(location, "/") <==> location == "/"
    ensures StartsWith(location, "/changes") ==> IsActive(location, "/changes")
    ensures IsActive("/changes/123", "/changes") && !IsActive("/changes/123", "/")
  {
    assert "/changes/123"[..8] == "/changes";
  }

  /** Two prefixes of the same string: the shorter is a prefix of the
      longer. */
  lemma PrefixesNest(s: string, a: string, b: string)
    requires StartsWith(s, a) && StartsWith(s, b) && |a| <= |b|
    ensures StartsWith(b, a)
  {
    assert b[..|a|] == s[..|b|][..|a|];
  }

  /** All the sidebar's links. */
  function AllLinks(): seq<NavLink> {
    NavLinks + ToolLinks
  }

  /** No link's url is a prefix of another's; the root, the only url of
      length one, is the first link. */
  lemma UrlsPrefixFree()
    ensures forall i, j | 0 <= i < |AllLinks()| && 0 <= j < |AllLinks()| && i != j
      && AllLinks()[i].url != "/" && AllLinks()[j].url != "/"
      :: !StartsWith(AllLinks()[j].url, AllLinks()[i].url)
    ensures forall k | 0 <= k < |AllLinks()| :: AllLinks()[k].url == "/" <==> k == 0
    ensures forall k | 0 < k < |AllLinks()| :: |AllLinks()[k].url| > 1
  {
    forall i, j | 0 <= i < |AllLinks()| && 0 <= j < |AllLinks()| && i != j
      && AllLinks()[i].url != "/" && AllLinks()[j].url != "/"
      ensures !StartsWith(AllLinks()[j].url, AllLinks()[i].url)
    {
      var u, v := AllLinks()[i].url, AllLinks()[j].url;
      assert u[1] != v[1] || u[2] != v[2] || |u| > |v|;
    }
  }

  /** Two active non-root urls nest. */
  lemma ActiveUrlsNest(location: string, u: string, v: string)
    requires IsActive(location, u) && IsActive(location, v)
    ensures u != "/" && v != "/" && |u| <= |v| ==> StartsWith(v, u)
  {
    if u != "/" && v != "/" && |u| <= |v| {
      PrefixesNest(location, u, v);
    }
  }

  /** For every location at most one sidebar item is highlighted. */
  lemma AtMostOneActive(location: string, i: nat, j: nat)
    requires i < |AllLinks()| && j < |AllLinks()|
    requires IsActive(location, AllLinks()[i].url) && IsActive(location, AllLinks()[j].url)
    ensures i == j
  {
    var u, v := AllLinks()[i].url, AllLinks()[j].url;
    UrlsPrefixFree();
    ActiveUrlsNest(location, u, v);
    ActiveUrlsNest(location, v, u);
  }

  /** A navigation link's test id (line 76): the title lower-cased. */
  function NavTestId(title: string): (r: string)
    ensures StartsWith(r, "link-nav-") && |r| == 9 + |title|
    ensures forall i | 0 <= i < |title| :: r[9 + i] == LowerChar(title[i])
  {
    var r := "link-nav-" + ToLower(title);
    assert r[..9] == "link-nav-";
    r
  }

  /** A tool link's test id (line 97): the title lower-cased with every
      whitespace character turned into `-`. */
  function ToolTestId(title: string): (r: string)
    ensures StartsWith(r, "link-nav-") && |r| == 9 + |title|
    ensures forall i | 9 <= i < |r| :: !IsWhitespace(r[i])
    ensures forall i | 0 <= i < |title| :: r[9 + i] == (if IsWhitespace(title[i]) then '-' else LowerChar(title[i]))
  {
    var r := "link-nav-" + DashWhitespace(ToLower(title));
    assert r[..9] == "link-nav-";
    forall i | 0 <= i < |title| ensures r[9 + i] == (if IsWhitespace(title[i]) then '-' else LowerChar(title[i])) {
      assert ToLower(title)[i] == LowerChar(title[i]);
      assert IsWhitespace(LowerChar(title[i])) <==> IsWhitespace(title[i]);
    }
    r
  }

  lemma LowerFormStudio()
    ensures ToLower("Form Studio") == "form studio"
  {
    var s := "Form Studio";
    assert s[0] == 'F' && s[5] == 'S';
    assert forall i | 0 <= i < 11 && i != 0 && i != 5 :: !('A' <= s[i] <= 'Z');
  }

  lemma DashFormStudio()
    ensures DashWhitespace("form studio") == "form-studio"
  {
    var l := "form studio";
    assert forall i | 0 <= i < 11 && i != 4 :: !IsWhitespace(l[i]);
  }

  /** For example, "Form Studio" gives `link-nav-form-studio`. */
  lemma FormStudioTestId()
    ensures ToolTestId("Form Studio") == "link-nav-form-studio"
  {
    LowerFormStudio();
    DashFormStudio();
  }
}
