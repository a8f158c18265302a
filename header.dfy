/** The top bar (src/components/Header.tsx): the search box and the two dropdowns,
    notifications and the user menu, of which at most one is open. */
module Header {
  import opened Wrappers
  import opened Text

  /** Where a search navigates: `/search?q=` followed by the encoded query. */
  datatype Route = SearchRoute(query: string)

  class HeaderBar {
    var searchQuery: string
    var showUserMenu: bool
    var showNotifications: bool

    /** At most one dropdown is open. */
    predicate Valid()
      reads this
    {
      !(showUserMenu && showNotifications)
    }

    constructor()
      ensures Valid()
      ensures searchQuery == "" && !showUserMenu && !showNotifications
    {
      searchQuery := "";
      showUserMenu := false;
      showNotifications := false;
    }

    /** The input's onChange. */
    method SetSearchQuery(text: string)
      modifies this`searchQuery
      ensures searchQuery == text
    {
      searchQuery := text;
    }

    /** handleSearch: a query that is blank after trimming does nothing; otherwise the bar
        navigates to the search page for the trimmed query and hands the same trimmed
        query to `onSearch`. The typed text itself is kept. */
    method HandleSearch() returns (route: Option<Route>, searched: Option<string>)
      ensures AllSpace(searchQuery) <==> route.None?
      ensures AllSpace(searchQuery) <==> searched.None?
      ensures route.Some? ==> route.value == SearchRoute(searched.value)
      ensures searched.Some? ==> searched.value == Trim(searchQuery) && searched.value != ""
      ensures searched.Some? ==> Trim(searched.value) == searched.value
    {
      var query := Trim(searchQuery);
      TrimEmptyIff(searchQuery);
      if query == "" {
        return None, None;
      }
      TrimIdempotent(searchQuery);
      route := Some(SearchRoute(query));
      searched := Some(query);
    }

    /** The bell: flips the notifications dropdown and always closes the user menu. */
    method ToggleNotifications()
      modifies this`showNotifications, this`showUserMenu
      ensures Valid()
      ensures showNotifications == !old(showNotifications) && !showUserMenu
    {
      showNotifications := !showNotifications;
      showUserMenu := false;
    }

    /** The avatar: flips the user menu and always closes notifications. */
    method ToggleUserMenu()
      modifies this`showNotifications, this`showUserMenu
      ensures Valid()
      ensures showUserMenu == !old(showUserMenu) && !showNotifications
    {
      showUserMenu := !showUserMenu;
      showNotifications := false;
    }

    /** "Ver todas as notificações" closes the notifications dropdown. */
    method CloseNotifications()
      modifies this`showNotifications
      ensures Valid()
      ensures !showNotifications && showUserMenu == old(showUserMenu)
    {
      showNotifications := false;
    }

    /** A link in the user menu closes it. */
    method CloseUserMenu()
      modifies this`showUserMenu
      ensures Valid()
      ensures !showUserMenu && showNotifications == old(showNotifications)
    {
      showUserMenu := false;
    }

    /** A click anywhere else in the document, while a dropdown is open, closes both. */
    method ClickOutside()
      modifies this`showNotifications, this`showUserMenu
      ensures Valid()
      ensures (old(showUserMenu) || old(showNotifications)) ==> !showUserMenu && !showNotifications
      ensures !(old(showUserMenu) || old(showNotifications)) ==>
                showUserMenu == old(showUserMenu) && showNotifications == old(showNotifications)
    {
      if showUserMenu || showNotifications {
        showUserMenu := false;
        showNotifications := false;
      }
    }
  }
}
