/** The dashboard component's state: the fetched colleges, the list the table and the
    export show, and the search term, with the handlers that update them. React runs the
    search effect after every render in which the colleges or the search term changed;
    here the setters and the effect are separate methods and the client methods at the
    end compose them in that order. */
module DashboardPage {
  import opened Wrappers
  import opened Records
  import opened Search
  import Csv
  import opened App

  class Dashboard {
    /** The gate whose `handleLogout` is passed down as `onLogout`. */
    const session: Session
    var colleges: seq<Record>
    var filtered: seq<Record>
    var searchTerm: string
    /** The search effect threw. Nothing catches the error, so React unmounts the tree:
        no handler of this dashboard runs again and its state updates are dropped. */
    var crashed: bool

    /** The shown list never holds anything but fetched colleges, in fetch order. */
    ghost predicate Valid()
      reads this
    {
      IsSubsequence(filtered, colleges)
    }

    /** The shown list is what the search effect computes from the current state. */
    ghost predicate Settled()
      reads this
    {
      Filter(colleges, searchTerm) == Ok(filtered)
    }

    constructor (session: Session)
      ensures Valid() && this.session == session
      ensures colleges == [] && filtered == [] && searchTerm == "" && !crashed
    {
      this.session := session;
      colleges, filtered, searchTerm := [], [], "";
      crashed := false;
    }

    /** The fetch resolved: the response becomes both the colleges and the shown list.
        On a dashboard that has already been unmounted the updates are dropped. */
    method OnFetchSuccess(data: seq<Record>)
      requires Valid()
      modifies this
      ensures Valid() && crashed == old(crashed) && searchTerm == old(searchTerm)
      ensures !crashed ==> colleges == data && filtered == data
      ensures crashed ==> colleges == old(colleges) && filtered == old(filtered)
    {
      if !crashed {
        colleges := data;
        filtered := data;
        SubsequenceReflexive(data);
      }
    }

    /** The fetch failed: the token is removed and the gate logs out, which brings back
        the Login screen. The dashboard's own state is left as it was. This runs even when
        the dashboard is no longer mounted, since the gate that receives the logout is. */
    method OnFetchFailure()
      modifies session, session.store
      ensures session.store.token == None && !session.loggedIn
      ensures session.Rendered() == LoginScreen
      ensures colleges == old(colleges) && filtered == old(filtered) && searchTerm == old(searchTerm)
      ensures crashed == old(crashed)
    {
      session.store.RemoveToken();
      session.HandleLogout();
    }

    /** The Logout button calls `onLogout` directly. */
    method OnLogoutClick()
      requires !crashed
      modifies session, session.store
      ensures session.store.token == None && !session.loggedIn
      ensures session.Rendered() == LoginScreen
    {
      session.HandleLogout();
    }

    /** Typing in the search box replaces the search term only. */
    method OnSearchInput(term: string)
      requires Valid() && !crashed
      modifies this
      ensures Valid() && !crashed
      ensures searchTerm == term && colleges == old(colleges) && filtered == old(filtered)
    {
      searchTerm := term;
    }

    /** The search effect: filters all colleges again and shows the result. When the
        filter throws, the shown list is not replaced and the dashboard is gone. */
    method ApplySearch() returns (outcome: Result<seq<Record>, SearchError>)
      requires Valid() && !crashed
      modifies this`filtered, this`crashed
      ensures Valid()
      ensures outcome == Filter(colleges, searchTerm)
      ensures outcome.Ok? ==> Settled() && !crashed
      ensures outcome.Err? ==> filtered == old(filtered) && crashed
    {
      outcome := Filter(colleges, searchTerm);
      if outcome.Ok? {
        FilterKeepsOrder(colleges, searchTerm);
        filtered := outcome.value;
      } else {
        crashed := true;
      }
    }

    /** `downloadCSV`: the text of the file offered for download, None when nothing is shown. */
    method DownloadCsv() returns (text: Option<string>)
      requires !crashed
      ensures text == Csv.Export(filtered)
      ensures text.None? <==> filtered == []
    {
      text := Csv.Export(filtered);
    }
  }

  /** Mounting, a successful fetch and the search effect it triggers: with the initial
      empty search term every fetched college is shown. */
  method MountAndFetch(session: Session, data: seq<Record>) returns (d: Dashboard)
    requires forall i :: 0 <= i < |data| ==> CollegeName(data[i]).Some?
    ensures fresh(d) && d.session == session && d.Valid() && d.Settled()
    ensures d.colleges == data && d.filtered == data && d.searchTerm == "" && !d.crashed
  {
    d := new Dashboard(session);
    var _ := d.ApplySearch();
    d.OnFetchSuccess(data);
    FilterEmptyTermKeepsAll(data);
    var _ := d.ApplySearch();
  }

  /** A search typed into a settled dashboard: the shown list is the selection of the
      fetched colleges, and running the effect again changes nothing. */
  method SearchFor(d: Dashboard, term: string) returns (outcome: Result<seq<Record>, SearchError>)
    requires d.Valid() && !d.crashed
    modifies d
    ensures d.Valid() && d.colleges == old(d.colleges) && d.searchTerm == term
    ensures outcome == Filter(d.colleges, term)
    ensures outcome.Ok? ==> d.Settled() && !d.crashed
    ensures outcome.Ok? ==> forall c :: c in d.filtered <==> c in d.colleges && Kept(c, term)
    ensures outcome.Err? ==> d.filtered == old(d.filtered) && d.crashed
  {
    d.OnSearchInput(term);
    outcome := d.ApplySearch();
    if outcome.Ok? {
      FilterSelects(d.colleges, term);
      var shown := d.filtered;
      var again := d.ApplySearch();
      assert d.filtered == shown;
    }
  }

  /** A fetched record without a college name makes the search effect that follows the
      fetch throw, and the dashboard is gone. */
  method FetchWithUnnamedRecord(session: Session, data: seq<Record>) returns (d: Dashboard)
    requires exists i :: 0 <= i < |data| && CollegeName(data[i]).None?
    ensures fresh(d) && d.session == session && d.crashed
    ensures d.colleges == data && d.filtered == data
  {
    d := new Dashboard(session);
    var _ := d.ApplySearch();
    d.OnFetchSuccess(data);
    FilterFailsAtFirstUnnamed(data, "");
    var _ := d.ApplySearch();
  }
}
