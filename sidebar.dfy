/** The navigation of src/components/layout/Sidebar.tsx and its role filter. */
module Sidebar {
  import opened Wrappers
  import opened Seqs
  import opened AuthStore

  /** A navigation entry; `roles == None` means the entry is for everyone. */
  datatype NavItem = NavItem(path: string, caption: string, roles: Option<seq<Role>>)

  const DASHBOARD := NavItem("/dashboard", "Dashboard", None)
  const EXPEDITIONS := NavItem("/expeditions", "Expediciones", None)
  const HISTORY := NavItem("/history", "Historial", None)
  const CONFIG := NavItem("/config", "Configuracion", Some([Dm, Admin]))

  /** `navItems`, in their declared order. */
  const NAV_ITEMS := [DASHBOARD, EXPEDITIONS, HISTORY, CONFIG]

  /** `!item.roles || (userRol && item.roles.includes(userRol))`. */
  predicate VisibleTo(item: NavItem, role: Option<Role>) {
    item.roles.None? || (role.Some? && role.value in item.roles.value)
  }

  function VisibleFor(role: Option<Role>): NavItem -> bool {
    (item: NavItem) => VisibleTo(item, role)
  }

  /** `visibleItems`: the entries the user's role may see, in declared order. */
  function VisibleItems(role: Option<Role>): (r: seq<NavItem>)
    ensures forall item :: item in r <==> item in NAV_ITEMS && VisibleTo(item, role)
    ensures Subsequence(r, NAV_ITEMS)
  {
    Filter(NAV_ITEMS, VisibleFor(role))
  }

  /** Unrestricted entries are always shown. */
  lemma UnrestrictedAlwaysVisible(role: Option<Role>)
    ensures forall item :: item in NAV_ITEMS && item.roles.None? ==> item in VisibleItems(role)
  {
  }

  /** The configuration entry is shown exactly to game masters and administrators. */
  lemma ConfigOnlyForStaff(role: Option<Role>)
    ensures CONFIG in VisibleItems(role) <==> role == Some(Dm) || role == Some(Admin)
  {
    assert CONFIG in NAV_ITEMS;
  }

  /** Without a role, and for a player, exactly the three unrestricted entries are shown, in order. */
  lemma UnprivilegedMenu(role: Option<Role>)
    requires role == None || role == Some(Player)
    ensures VisibleItems(role) == [DASHBOARD, EXPEDITIONS, HISTORY]
  {
    var keep := VisibleFor(role);
    var open := [DASHBOARD, EXPEDITIONS, HISTORY];
    assert NAV_ITEMS == open + [CONFIG];
    FilterAppend(open, CONFIG, keep);
    FilterAll(open, keep);
    assert !keep(CONFIG);
  }

  /** Staff see every entry. */
  lemma StaffMenu(role: Option<Role>)
    requires role == Some(Dm) || role == Some(Admin)
    ensures VisibleItems(role) == NAV_ITEMS
  {
    FilterAll(NAV_ITEMS, VisibleFor(role));
  }
}
