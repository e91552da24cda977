/** The side bar's navigation: eight fixed entries and a help entry, each
    highlighted as active depending on the current path. */
module Sidebar {

  /** A navigation entry; its icon is only displayed. */
  datatype NavItem = NavItem(href: string, title: string)

  const DashboardHref: string := "/dashboard"

  /** `navItems`. */
  function NavItems(): (r: seq<NavItem>)
    ensures |r| == 8 && r[0].href == DashboardHref
  {
    [ NavItem(DashboardHref, "Dashboard"),
      NavItem("/report-generator", "Report Generator"),
      NavItem("/templates", "Templates"),
      NavItem("/settings", "Settings"),
      NavItem("/wincc-activity-logger", "WinCC Activity Logger"),
      NavItem("/logs-errors", "Logs/Errors"),
      NavItem("/email-sender", "Email Sender"),
      NavItem("/scheduler", "Scheduler") ]
  }

  /** `helpNavItem`. */
  const HelpItem: NavItem := NavItem("/help", "Help")

  /** A navigation entry is active on its own path and, except for the
      dashboard, on every path that starts with its href as a plain string
      prefix (so "/templates-x" activates "/templates"). */
  function IsActive(pathname: string, href: string): (active: bool)
    ensures pathname == href ==> active
    ensures href == DashboardHref ==> (active <==> pathname == DashboardHref)
    ensures href != DashboardHref ==> (active <==> href <= pathname)
  {
    pathname == href || (href != DashboardHref && href <= pathname)
  }

  /** The help entry is active on every path starting with "/help". */
  function HelpActive(pathname: string): (active: bool)
    ensures active <==> |pathname| >= 5 && pathname[..5] == "/help"
  {
    HelpItem.href <= pathname
  }

  /** All the hrefs, the help entry's last. */
  function AllHrefs(): (r: seq<string>)
    ensures |r| == 9 && r[8] == HelpItem.href
  {
    seq(8, i requires 0 <= i < 8 => NavItems()[i].href) + [HelpItem.href]
  }

  /** The position in `AllHrefs()` of the href whose second and third
      characters are those of `s`; no two hrefs share both. */
  function HrefIndex(s: string): int
    requires |s| >= 3
  {
    match s[1]
    case 'd' => 0
    case 'r' => 1
    case 't' => 2
    case 's' => if s[2] == 'e' then 3 else 7
    case 'w' => 4
    case 'l' => 5
    case 'e' => 6
    case 'h' => 8
    case _ => -1
  }

  /** `HrefIndex` recovers each href's position. */
  lemma HrefsIndexed()
    ensures forall i :: 0 <= i < |AllHrefs()| ==> |AllHrefs()[i]| >= 3 && HrefIndex(AllHrefs()[i]) == i
  {
    var h := AllHrefs();
    assert h == ["/dashboard", "/report-generator", "/templates", "/settings", "/wincc-activity-logger",
                 "/logs-errors", "/email-sender", "/scheduler", "/help"];
  }

  /** No href is a prefix of another one. */
  lemma HrefsPrefixFree()
    ensures forall i, j :: 0 <= i < |AllHrefs()| && 0 <= j < |AllHrefs()| && i != j ==> !(AllHrefs()[i] <= AllHrefs()[j])
  {
    var h := AllHrefs();
    HrefsIndexed();
    forall i, j | 0 <= i < 9 && 0 <= j < 9 && h[i] <= h[j] ensures i == j {
      assert h[j][1] == h[i][1] && h[j][2] == h[i][2];
      assert HrefIndex(h[j]) == HrefIndex(h[i]);
    }
  }

  /** Two prefixes of the same string are prefixes of one another. */
  lemma PrefixesNest(a: string, b: string, p: string)
    requires a <= p && b <= p
    ensures a <= b || b <= a
  {
    if |a| <= |b| {
      assert a == p[..|a|] && b[..|a|] == p[..|a|];
    } else {
      assert b == p[..|b|] && a[..|b|] == p[..|b|];
    }
  }

  /** Whatever the path, at most one entry, the help entry included, is
      highlighted. */
  lemma AtMostOneActive(pathname: string)
    ensures forall i, j :: 0 <= i < j < 8 && IsActive(pathname, NavItems()[i].href) ==>
      !IsActive(pathname, NavItems()[j].href)
    ensures forall i :: 0 <= i < 8 && HelpActive(pathname) ==> !IsActive(pathname, NavItems()[i].href)
  {
    var h := AllHrefs();
    HrefsPrefixFree();
    forall i, j | 0 <= i < j < 9 && h[i] <= pathname && h[j] <= pathname ensures false {
      PrefixesNest(h[i], h[j], pathname);
    }
    forall i | 0 <= i < 8 ensures NavItems()[i].href == h[i] {
    }
  }

  /** The three ways a path relates to an entry, on the paths that show them. */
  lemma ActiveExamples()
    ensures IsActive("/templates/new", "/templates") && IsActive("/templates-x", "/templates")
    ensures !IsActive("/dashboard/details", DashboardHref) && IsActive(DashboardHref, DashboardHref)
    ensures HelpActive("/help/faq") && !HelpActive("/settings")
  {
    assert "/templates" <= "/templates/new";
    assert "/templates" <= "/templates-x";
    assert "/settings"[1] != HelpItem.href[1];
  }
}
