/**
 * The navigation sidebar (components/Sidebar.tsx): the menu entries a
 * user is shown, and the collapse state remembered in local storage.
 */
module Sidebar {
  import opened Wrappers
  import opened Lists
  import opened Roles

  /** A menu entry: its view and, for restricted entries, the permission it needs. */
  datatype NavItem = NavItem(view: string, icon: string, title: string, permission: Option<Permission>)

  /** The six entries, in the order they are listed. */
  function NavItems(): (items: seq<NavItem>)
    ensures |items| == 6
  {
    [NavItem("pipeline", "view_kanban", "Pipeline", None),
     NavItem("financial", "attach_money", "Financeiro", Some(ViewFinancial)),
     NavItem("goals", "flag", "Metas", None),
     NavItem("calendar", "calendar_month", "Calendário", None),
     NavItem("projects", "rocket_launch", "Projetos", None),
     NavItem("settings", "settings", "Configurações", Some(ManageSettings))]
  }

  function Visible(role: Option<string>): (test: NavItem -> bool)
    ensures forall item: NavItem :: test(item) <==>
      item.permission.None? || (role.Some? && role.value != "" && Text.Lower(role.value) == "manager")
  {
    (item: NavItem) => item.permission.None? || HasPermission(role, Allowed(item.permission.value))
  }

  /** The entries shown to a user of that role, in their listed order. */
  function ShownItems(role: Option<string>): (items: seq<NavItem>)
    ensures SubseqOf(items, NavItems())
  {
    FilterSubseq(NavItems(), Visible(role));
    Filter(NavItems(), Visible(role))
  }

  function Views(items: seq<NavItem>): (views: seq<string>)
  {
    Map(items, (item: NavItem) => item.view)
  }

  /** A user with manager rights sees every entry; anyone else sees all but the financial and settings pages. */
  lemma ShownByRights(role: Option<string>)
    ensures var items := NavItems();
      ShownItems(role) == if HasPermission(role, ["manager"]) then items
                          else [items[0], items[2], items[3], items[4]]
  {
    var items := NavItems();
    var test := Visible(role);
    assert test(items[0]) && test(items[2]) && test(items[3]) && test(items[4]);
    assert test(items[1]) == HasPermission(role, ["manager"]) == test(items[5]);
    TwoRestricted(items, test);
  }

  /** Filtering six entries of which the second and the last pass or fail together and the rest pass. */
  lemma TwoRestricted<T>(xs: seq<T>, f: T -> bool)
    requires |xs| == 6 && f(xs[0]) && f(xs[2]) && f(xs[3]) && f(xs[4]) && f(xs[1]) == f(xs[5])
    ensures Filter(xs, f) == if f(xs[1]) then xs else [xs[0], xs[2], xs[3], xs[4]]
  {
    if f(xs[1]) {
      forall x | x in xs ensures f(x) {
        var i :| 0 <= i < 6 && xs[i] == x;
      }
      FilterAll(xs, f);
    } else {
      TwoDropped(xs, f);
    }
  }

  lemma TwoDropped<T>(xs: seq<T>, f: T -> bool)
    requires |xs| == 6 && f(xs[0]) && f(xs[2]) && f(xs[3]) && f(xs[4]) && !f(xs[1]) && !f(xs[5])
    ensures Filter(xs, f) == [xs[0], xs[2], xs[3], xs[4]]
  {
    var t5 := [xs[5]];
    var t4 := [xs[4]] + t5;
    var t3 := [xs[3]] + t4;
    var t2 := [xs[2]] + t3;
    var t1 := [xs[1]] + t2;
    assert xs == [xs[0]] + t1;
    FilterCons(xs[5], [], f);
    assert [xs[5]] + [] == t5;
    FilterCons(xs[4], t5, f);
    FilterCons(xs[3], t4, f);
    assert Filter(t3, f) == [xs[3], xs[4]];
    FilterCons(xs[2], t3, f);
    FilterCons(xs[1], t2, f);
    assert Filter(t1, f) == [xs[2], xs[3], xs[4]];
    FilterCons(xs[0], t1, f);
    PrependDisplay(xs[0], xs[2], xs[3], xs[4]);
  }

  lemma PrependDisplay<T>(a: T, b: T, c: T, d: T)
    ensures [a] + [b, c, d] == [a, b, c, d]
  {
  }

  /** The rights are the manager role in any letter case. */
  lemma ShownViews(role: Option<string>)
    ensures role.Some? && Text.Lower(role.value) == "manager" ==>
      Views(ShownItems(role)) == ["pipeline", "financial", "goals", "calendar", "projects", "settings"]
    ensures !(role.Some? && Text.Lower(role.value) == "manager") ==>
      Views(ShownItems(role)) == ["pipeline", "goals", "calendar", "projects"]
  {
    ShownByRights(role);
    var manager := role.Some? && Text.Lower(role.value) == "manager";
    if role.Some? {
      OnlyManagers(role.value, ViewFinancial);
    }
    assert HasPermission(role, ["manager"]) == manager;
    if manager {
      AllViews();
    } else {
      RestrictedViews();
    }
  }

  lemma AllViews()
    ensures Views(NavItems()) == ["pipeline", "financial", "goals", "calendar", "projects", "settings"]
  {
  }

  lemma RestrictedViews()
    ensures var items := NavItems();
      Views([items[0], items[2], items[3], items[4]]) == ["pipeline", "goals", "calendar", "projects"]
  {
  }

  class SidebarState {
    var isCollapsed: bool

    /** The initial state: collapsed exactly when the stored value is the text 'true'. */
    constructor (saved: Option<string>)
      ensures isCollapsed <==> saved == Some("true")
    {
      isCollapsed := saved == Some("true");
    }

    /** `toggleCollapse`: the state flips and its text is stored. */
    method ToggleCollapse() returns (stored: string)
      modifies this
      ensures isCollapsed == !old(isCollapsed)
      ensures stored == (if isCollapsed then "true" else "false")
    {
      isCollapsed := !isCollapsed;
      stored := if isCollapsed then "true" else "false";
    }
  }

  /** What `toggleCollapse` stores is read back as the state it set. */
  lemma StoredRoundTrip(collapsed: bool)
    ensures ((if collapsed then "true" else "false") == "true") == collapsed
  {
  }
}
