/** The top navigation bar: its four links and which of them is highlighted for
    the current path. */
module SimpleNav {

  /** A link of the bar. The icon is left out. */
  datatype NavItem = NavItem(name: string, href: string)

  /** The links, in the order they are drawn. */
  const Navigation: seq<NavItem> := [
    NavItem("Home", "/home"),
    NavItem("Athletes", "/athletes"),
    NavItem("Performances", "/performances"),
    NavItem("Stats", "/stats")
  ]

  /** A link is highlighted when the path is its target, or when the target is not
      the root and the path starts with it. */
  predicate IsActive(pathname: string, href: string): (active: bool)
    ensures href == "/" ==> (active <==> pathname == "/")
    ensures href != "/" ==> (active <==> href <= pathname)
  {
    pathname == href || (href != "/" && href <= pathname)
  }

  /** A link is always highlighted on its own page. */
  lemma ExactMatchIsActive(href: string)
    ensures IsActive(href, href)
  {
  }

  /** The root link would only be highlighted on the root itself. */
  lemma RootOnlyOnRoot(pathname: string)
    ensures IsActive(pathname, "/") <==> pathname == "/"
  {
  }

  /** None of the bar's targets is the root, so for each of them the highlight is a
      plain prefix test. */
  lemma NavigationIsPrefixTest(pathname: string, i: nat)
    requires i < |Navigation|
    ensures IsActive(pathname, Navigation[i].href) <==> Navigation[i].href <= pathname
  {
    assert Navigation[i].href != "/" by {
      assert Navigation[i].href[0] == '/' && |Navigation[i].href| > 1;
    }
  }

  /** The prefix test does not stop at a path segment: `/homework` highlights Home,
      and so do Home's subpages. */
  lemma HomeworkActivatesHome()
    ensures IsActive("/homework", Navigation[0].href)
    ensures IsActive("/home/settings", Navigation[0].href)
    ensures !IsActive("/hom", Navigation[0].href)
  {
    assert "/home" <= "/homework" by {
      assert "/homework"[..5] == "/home";
    }
    assert "/home" <= "/home/settings" by {
      assert "/home/settings"[..5] == "/home";
    }
  }

  /** Two prefixes of the same text: the shorter is a prefix of the longer. */
  lemma PrefixesOfSame(a: string, b: string, p: string)
    requires a <= p && b <= p && |a| <= |b|
    ensures a <= b
  {
    assert a == p[..|a|] && b == p[..|b|];
    assert b[..|a|] == p[..|a|];
  }

  /** No target of the bar is a prefix of another. */
  lemma TargetsArePrefixFree(i: nat, j: nat)
    requires i < |Navigation| && j < |Navigation| && i != j
    ensures !(Navigation[i].href <= Navigation[j].href)
  {
    var a, b := Navigation[i].href, Navigation[j].href;
    assert |a| >= 2 && |b| >= 2 && a[1] != b[1];
  }

  /** Whatever the path, at most one link is highlighted. */
  lemma AtMostOneActive(pathname: string, i: nat, j: nat)
    requires i < |Navigation| && j < |Navigation|
    requires IsActive(pathname, Navigation[i].href) && IsActive(pathname, Navigation[j].href)
    ensures i == j
  {
    var a, b := Navigation[i].href, Navigation[j].href;
    NavigationIsPrefixTest(pathname, i);
    NavigationIsPrefixTest(pathname, j);
    if i != j {
      if |a| <= |b| {
        PrefixesOfSame(a, b, pathname);
        TargetsArePrefixFree(i, j);
      } else {
        PrefixesOfSame(b, a, pathname);
        TargetsArePrefixFree(j, i);
      }
    }
  }
}
